/** Routing of cursor motion over a topology of linked screens. */
module TopologyRouting {
  import opened MachineInts
  import opened Wrappers
  import opened ScreenModel
  import opened EdgeBarriers

  datatype Route =
    | Stay(screenId: ScreenId, dx: I32, dy: I32)
    | Cross(screenId: ScreenId, x: I32, y: I32)

  datatype RouterFault = InvalidTopology(fault: TopologyFault) | ActiveScreenMissing(id: ScreenId)

  // ---------- Geometry ----------

  // Maps a coordinate on an axis of length `from` to an axis of length `to`.
  function ScaleAxis(value: I32, from: I32, to: I32): I32
    requires from > 0 && to > 0
  {
    Clamp(TruncDiv(value * to, from), 0, to - 1)
  }

  function ClampX(x: I32, size: ScreenSize): I32 {
    Clamp(x, 0, size.width - 1)
  }

  function ClampY(y: I32, size: ScreenSize): I32 {
    Clamp(y, 0, size.height - 1)
  }

  // The cursor already sits on edge `e` and the motion points out of it.
  predicate PushesInto(e: Edge, x: I32, y: I32, size: ScreenSize, dx: I32, dy: I32) {
    match e
    case Left => x == 0 && dx < 0
    case Right => x == size.width - 1 && dx > 0
    case Top => y == 0 && dy < 0
    case Bottom => y == size.height - 1 && dy > 0
  }

  // The motion carries the cursor at least as far as edge `e`.
  predicate Reaches(e: Edge, x: I32, y: I32, size: ScreenSize, dx: I32, dy: I32) {
    match e
    case Left => SatAdd(x, dx) <= 0 && dx < 0
    case Right => SatAdd(x, dx) >= size.width - 1 && dx > 0
    case Top => SatAdd(y, dy) <= 0 && dy < 0
    case Bottom => SatAdd(y, dy) >= size.height - 1 && dy > 0
  }

  // Left and right take precedence over top and bottom.
  function FirstEdge(left: bool, right: bool, top: bool, bottom: bool): Option<Edge> {
    if left then Some(Left)
    else if right then Some(Right)
    else if top then Some(Top)
    else if bottom then Some(Bottom)
    else None
  }

  // How far the motion goes beyond edge `e`.
  function Outward(e: Edge, dx: I32, dy: I32): I32 {
    match e
    case Left => SatAbs(dx)
    case Right => dx
    case Top => SatAbs(dy)
    case Bottom => dy
  }

  // Where a cursor that leaves a `source` screen through `e` appears on a `target` screen.
  function Landing(e: Edge, nextX: I32, nextY: I32, source: ScreenSize, target: ScreenSize): (I32, I32) {
    match e
    case Left => (SatSub(target.width, 2), ScaleAxis(ClampY(nextY, source), source.height, target.height))
    case Right => (Min(1, target.width - 1), ScaleAxis(ClampY(nextY, source), source.height, target.height))
    case Top => (ScaleAxis(ClampX(nextX, source), source.width, target.width), SatSub(target.height, 2))
    case Bottom => (ScaleAxis(ClampX(nextX, source), source.width, target.width), Min(1, target.height - 1))
  }

  // ---------- Links ----------

  // The other end of a link at `source`, provided that its screen is online.
  function PeerOf(t: ScreenTopology, link: ScreenLink, source: ScreenEdge): Option<ScreenEdge> {
    if link.from == source then (if IsOnline(t, link.to.screenId) then Some(link.to) else None)
    else if link.to == source then (if IsOnline(t, link.from.screenId) then Some(link.from) else None)
    else None
  }

  function FindPeer(t: ScreenTopology, links: seq<ScreenLink>, source: ScreenEdge): (r: Option<ScreenEdge>)
    ensures r.Some? ==> IsOnline(t, r.value.screenId)
  {
    if links == [] then None
    else if PeerOf(t, links[0], source).Some? then PeerOf(t, links[0], source)
    else FindPeer(t, links[1..], source)
  }

  lemma FindPeerExact(t: ScreenTopology, links: seq<ScreenLink>, source: ScreenEdge)
    ensures FindPeer(t, links, source).Some? ==>
              exists l :: l in links && PeerOf(t, l, source) == FindPeer(t, links, source)
    ensures FindPeer(t, links, source).None? <==> forall l | l in links :: PeerOf(t, l, source).None?
  {
    if links != [] {
      FindPeerExact(t, links[1..], source);
      assert forall l :: l in links <==> l == links[0] || l in links[1..];
    }
  }

  function LinkedEdge(t: ScreenTopology, active: ScreenId, e: Edge): Option<ScreenEdge> {
    FindPeer(t, t.links, ScreenEdge(active, e))
  }

  // ---------- The router as a value ----------

  datatype RouterState = RouterState(
    topology: ScreenTopology,
    active: ScreenId,
    x: I32,
    y: I32,
    barrier: Barrier<Edge>)
  {
    // The screen the cursor is on is part of the topology; all that routing needs.
    predicate Placed() {
      Knows(topology, active)
    }

    function Size(): ScreenSize
      requires Placed()
    {
      SizeOf(topology, active)
    }

    function Pushed(dx: I32, dy: I32): Option<Edge>
      requires Placed()
    {
      FirstEdge(PushesInto(Left, x, y, Size(), dx, dy), PushesInto(Right, x, y, Size(), dx, dy),
                PushesInto(Top, x, y, Size(), dx, dy), PushesInto(Bottom, x, y, Size(), dx, dy))
    }

    function Reached(dx: I32, dy: I32): Option<Edge>
      requires Placed()
    {
      FirstEdge(Reaches(Left, x, y, Size(), dx, dy), Reaches(Right, x, y, Size(), dx, dy),
                Reaches(Top, x, y, Size(), dx, dy), Reaches(Bottom, x, y, Size(), dx, dy))
    }

    predicate Linked(e: Option<Edge>) {
      e.Some? && LinkedEdge(topology, active, e.value).Some?
    }

    // The cursor after a motion that does not cross.
    function MovedBy(dx: I32, dy: I32): RouterState
      requires Placed()
    {
      this.(x := ClampX(SatAdd(x, dx), Size()), y := ClampY(SatAdd(y, dy), Size()))
    }

    // The screen and position entered by crossing the linked edge `e`.
    function Entered(e: Edge, dx: I32, dy: I32): RouterState
      requires Placed() && Linked(Some(e))
    {
      var target := LinkedEdge(topology, active, e).value.screenId;
      var (lx, ly) := Landing(e, SatAdd(x, dx), SatAdd(y, dy), Size(), SizeOf(topology, target));
      RouterState(topology, target, lx, ly, Idle())
    }

    // One motion; a timestamp selects the waiting barrier, none the distance barrier.
    function Route(dx: I32, dy: I32, now: Option<U64>): (Route, RouterState)
      requires Placed()
    {
      var e := Pushed(dx, dy);
      if Linked(e) then
        var (open, barrier') := if now.Some? then barrier.WaitElapsed(e.value, now.value)
                                else barrier.Push(e.value, Outward(e.value, dx, dy));
        if open then
          var next := Entered(e.value, dx, dy);
          (Cross(next.active, next.x, next.y), next)
        else
          (Stay(active, dx, dy), MovedBy(dx, dy).(barrier := barrier'))
      else
        var r := Reached(dx, dy);
        var barrier' := if now.Some? && Linked(r) then barrier.StartWait(r.value, now.value) else Idle();
        (Stay(active, dx, dy), MovedBy(dx, dy).(barrier := barrier'))
    }

    function Positioned(id: ScreenId, px: I32, py: I32): Result<RouterState, RouterFault> {
      if !Knows(topology, id) then Failure(ActiveScreenMissing(id))
      else
        var size := SizeOf(topology, id);
        Success(RouterState(topology, id, ClampX(px, size), ClampY(py, size), Idle()))
    }

    function Replaced(t: ScreenTopology): Result<RouterState, RouterFault> {
      var fault := CheckTopology(t);
      if fault.Some? then Failure(InvalidTopology(fault.value))
      else if !Knows(t, active) then Failure(ActiveScreenMissing(active))
      else
        var size := SizeOf(t, active);
        Success(RouterState(t, active, ClampX(x, size), ClampY(y, size), Idle()))
    }
  }

  function Opened(t: ScreenTopology, active: ScreenId, x: I32, y: I32): Result<RouterState, RouterFault> {
    RouterState(t, active, x, y, Idle()).Replaced(t)
  }

  // ---------- The router as an object ----------

  class TopologyRouter {
    var topology: ScreenTopology
    var active: ScreenId
    var x: I32
    var y: I32
    const barrier: EdgeBarrier<Edge>

    function State(): RouterState
      reads this, barrier
    {
      RouterState(topology, active, x, y, barrier.State())
    }

    ghost predicate Valid()
      reads this, barrier
    {
      State().Placed()
    }

    // `TopologyRouter::new` after its two checks have passed.
    constructor (t: ScreenTopology, screen: ScreenId, px: I32, py: I32)
      requires Opened(t, screen, px, py).Success?
      ensures fresh(barrier)
      ensures Success(State()) == Opened(t, screen, px, py)
      ensures Valid()
    {
      var size := SizeOf(t, screen);
      topology, active := t, screen;
      x, y := ClampX(px, size), ClampY(py, size);
      barrier := new EdgeBarrier<Edge>();
    }

    static method Open(t: ScreenTopology, screen: ScreenId, px: I32, py: I32)
      returns (r: Result<TopologyRouter, RouterFault>)
      ensures r.Success? <==> Opened(t, screen, px, py).Success?
      ensures r.Success? ==>
                && fresh(r.value) && fresh(r.value.barrier) && r.value.Valid()
                && Success(r.value.State()) == Opened(t, screen, px, py)
      ensures r.Failure? ==> Failure(r.error) == Opened(t, screen, px, py)
    {
      var fault := ValidateTopology(t);
      if fault.Some? {
        return Failure(InvalidTopology(fault.value));
      }
      if !Knows(t, screen) {
        return Failure(ActiveScreenMissing(screen));
      }
      var router := new TopologyRouter(t, screen, px, py);
      return Success(router);
    }

    method SetPosition(id: ScreenId, px: I32, py: I32) returns (r: Result<(), RouterFault>)
      requires Valid()
      modifies this, barrier
      ensures Valid()
      ensures match old(State()).Positioned(id, px, py)
              case Success(next) => r == Success(()) && State() == next
              case Failure(fault) => r == Failure(fault) && State() == old(State())
    {
      var found := FindScreen(topology.screens, id);
      if found.None? {
        return Failure(ActiveScreenMissing(id));
      }
      var size := found.value.EffectiveSize();
      active := id;
      x, y := ClampX(px, size), ClampY(py, size);
      barrier.Reset();
      return Success(());
    }

    method ReplaceTopology(t: ScreenTopology) returns (r: Result<(), RouterFault>)
      requires Valid()
      modifies this, barrier
      ensures Valid()
      ensures match old(State()).Replaced(t)
              case Success(next) => r == Success(()) && State() == next
              case Failure(fault) => r == Failure(fault) && State() == old(State())
    {
      var fault := ValidateTopology(t);
      if fault.Some? {
        return Failure(InvalidTopology(fault.value));
      }
      var found := FindScreen(t.screens, active);
      if found.None? {
        return Failure(ActiveScreenMissing(active));
      }
      var size := found.value.EffectiveSize();
      x, y := ClampX(x, size), ClampY(y, size);
      topology := t;
      barrier.Reset();
      return Success(());
    }

    // `route_motion_inner`: both `route_motion` (no timestamp) and `route_motion_at`.
    method RouteMotion(dx: I32, dy: I32, now: Option<U64>) returns (route: Route)
      requires Valid()
      modifies this, barrier
      ensures Valid()
      ensures (route, State()) == old(State()).Route(dx, dy, now)
    {
      RouteStaysPlaced(State(), dx, dy, now);
      var crossed := State().Pushed(dx, dy);
      if crossed.Some? && LinkedEdge(topology, active, crossed.value).Some? {
        route := PushThrough(crossed.value, dx, dy, now);
        return;
      }
      var size := SizeOf(topology, active);
      var reached := State().Reached(dx, dy);
      if now.Some? && reached.Some? && LinkedEdge(topology, active, reached.value).Some? {
        barrier.StartWait(reached.value, now.value);
      } else {
        barrier.Reset();
      }
      x, y := ClampX(SatAdd(x, dx), size), ClampY(SatAdd(y, dy), size);
      return Stay(active, dx, dy);
    }

    // The branch of `route_motion_inner` in which the cursor pushes against a linked edge.
    method PushThrough(e: Edge, dx: I32, dy: I32, now: Option<U64>) returns (route: Route)
      requires Valid() && State().Pushed(dx, dy) == Some(e) && State().Linked(Some(e))
      modifies this, barrier
      ensures (route, State()) == old(State()).Route(dx, dy, now)
    {
      var target := LinkedEdge(topology, active, e).value.screenId;
      var size := SizeOf(topology, active);
      var nextX, nextY := SatAdd(x, dx), SatAdd(y, dy);
      var canCross: bool;
      if now.Some? {
        canCross := barrier.WaitElapsed(e, now.value);
      } else {
        canCross := barrier.Push(e, Outward(e, dx, dy));
      }
      if !canCross {
        x, y := ClampX(nextX, size), ClampY(nextY, size);
        return Stay(active, dx, dy);
      }
      var landing := Landing(e, nextX, nextY, size, SizeOf(topology, target));
      active := target;
      x, y := landing.0, landing.1;
      return Cross(active, x, y);
    }
  }

  // ---------- Facts about links and routed states ----------

  // Following a link never leaves the topology: an online screen is a known one.
  lemma RouteStaysPlaced(r: RouterState, dx: I32, dy: I32, now: Option<U64>)
    requires r.Placed()
    ensures r.Route(dx, dy, now).1.Placed()
  {
  }
}
