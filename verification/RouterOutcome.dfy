/** Where one motion takes the cursor, in plain pixels: no saturation, no clamping, no order of tests. */
module RouterOutcomes {
  import opened MachineInts
  import opened Wrappers
  import opened ScreenModel
  import opened EdgeBarriers
  import opened TopologyRouting
  import opened RouterGeometry

  // The pixel of an axis of this length that is nearest to an exact coordinate.
  function Nearest(v: int, length: int): (p: int)
    requires length > 0
    ensures 0 <= p < length
  {
    if v < 0 then 0 else if v >= length then length - 1 else v
  }

  // The cursor stands on this border and the motion points out of it.
  predicate Outbound(e: Edge, x: int, y: int, size: ScreenSize, dx: int, dy: int) {
    match e
    case Left => x == 0 && dx < 0
    case Right => x + 1 == size.width && dx > 0
    case Top => y == 0 && dy < 0
    case Bottom => y + 1 == size.height && dy > 0
  }

  // Pushed out sideways, or else up or down.
  predicate PushedOut(e: Edge, x: int, y: int, size: ScreenSize, dx: int, dy: int) {
    && Outbound(e, x, y, size, dx, dy)
    && (e.Top? || e.Bottom? ==>
          !Outbound(Left, x, y, size, dx, dy) && !Outbound(Right, x, y, size, dx, dy))
  }

  lemma PushedExact(r: RouterState, dx: I32, dy: I32, e: Edge)
    requires r.Placed()
    ensures r.Pushed(dx, dy) == Some(e) <==> PushedOut(e, r.x, r.y, r.Size(), dx, dy)
  {
  }

  // The cursor is on its screen, or next to it because that is one pixel long.
  predicate OnOrBeside(r: RouterState)
    requires r.Placed()
  {
    && -1 <= r.x < r.Size().width && (r.x == -1 ==> r.Size().width == 1)
    && -1 <= r.y < r.Size().height && (r.y == -1 ==> r.Size().height == 1)
  }

  lemma AlwaysOnOrBeside(r: RouterState, dx: I32, dy: I32, now: Option<U64>)
    requires r.Placed()
    ensures var next := r.Route(dx, dy, now).1; next.Placed() && OnOrBeside(next)
  {
    RouteStaysPlaced(r, dx, dy, now);
    hide RouterState.Pushed, RouterState.Reached, LinkedEdge;
  }

  /** A motion reaches an edge exactly if it moves toward it and leaves the cursor on it. */
  lemma ReachesExact(r: RouterState, dx: I32, dy: I32, e: Edge)
    requires r.Placed() && OnOrBeside(r)
    ensures var x, y := Nearest(r.x + dx, r.Size().width), Nearest(r.y + dy, r.Size().height);
            Reaches(e, r.x, r.y, r.Size(), dx, dy) <==>
              match e
              case Left => x == 0 && dx < 0
              case Right => x + 1 == r.Size().width && dx > 0
              case Top => y == 0 && dy < 0
              case Bottom => y + 1 == r.Size().height && dy > 0
  {
  }

  // The link at this edge leads to an online screen, and its barrier is about to open.
  predicate Opens(r: RouterState, e: Edge, dx: I32, dy: I32, now: Option<U64>) {
    && r.Linked(Some(e))
    && (if now.Some? then r.barrier.WaitElapsed(e, now.value) else r.barrier.Push(e, Outward(e, dx, dy))).0
  }

  /** A motion that does not cross is passed on as it is and ends at the nearest pixel of the same screen. */
  lemma StayExact(r: RouterState, dx: I32, dy: I32, now: Option<U64>)
    requires r.Placed()
    ensures var (route, next) := r.Route(dx, dy, now);
            route.Stay? ==>
              && route == Stay(r.active, dx, dy) && next.topology == r.topology && next.active == r.active
              && next.x == Nearest(r.x + dx, r.Size().width) && next.y == Nearest(r.y + dy, r.Size().height)
  {
    hide RouterState.Pushed, RouterState.Reached, LinkedEdge, Landing;
  }

  lemma CrossExact(r: RouterState, dx: I32, dy: I32, now: Option<U64>)
    requires r.Placed()
    ensures r.Route(dx, dy, now).0.Cross? <==>
              exists e :: PushedOut(e, r.x, r.y, r.Size(), dx, dy) && Opens(r, e, dx, dy, now)
  {
    forall e ensures r.Pushed(dx, dy) == Some(e) <==> PushedOut(e, r.x, r.y, r.Size(), dx, dy) {
      PushedExact(r, dx, dy, e);
    }
    hide RouterState.Pushed, RouterState.Reached, LinkedEdge, Landing, PushedOut;
  }

  // Two edges are the ends of one link of the topology.
  predicate Linked(t: ScreenTopology, a: ScreenEdge, b: ScreenEdge) {
    ScreenLink(a, b) in t.links || ScreenLink(b, a) in t.links
  }

  /** In a valid topology an edge leads to exactly the other end of a link at it whose screen is online. */
  lemma LinkedEdgeExact(t: ScreenTopology, a: ScreenId, e: Edge, p: ScreenEdge)
    requires ValidTopology(t)
    ensures LinkedEdge(t, a, e) == Some(p) <==> Linked(t, ScreenEdge(a, e), p) && IsOnline(t, p.screenId)
  {
    hide ValidIds, NodeIds, Clash;
    var source := ScreenEdge(a, e);
    var known := Elements(NodeIds(t.screens));
    FindPeerExact(t, t.links, source);
    if LinkedEdge(t, a, e) == Some(p) {
      var link :| link in t.links && PeerOf(t, link, source) == Some(p);
      assert link == ScreenLink(source, p) || link == ScreenLink(p, source);
    }
    if Linked(t, source, p) && IsOnline(t, p.screenId) {
      var link := if ScreenLink(source, p) in t.links then ScreenLink(source, p) else ScreenLink(p, source);
      assert WellFormedLink(link, known);
      forall l | l in t.links && Touches(l, source) ensures l == link {
        OneLinkPerEdge(t.links, known, l, link, source);
      }
      OnlyLinkFound(t, t.links, link, source);
    }
  }

  // Entering through an edge, the cursor is put one pixel in from it, and along it at the same proportion.
  predicate LandsAt(e: Edge, x: int, y: int, along: (int, int), source: ScreenSize, target: ScreenSize) {
    match e
    case Left => x == target.width - 2 && y == along.1 * target.height / source.height
    case Right => x == (if target.width > 1 then 1 else 0) && y == along.1 * target.height / source.height
    case Top => x == along.0 * target.width / source.width && y == target.height - 2
    case Bottom => x == along.0 * target.width / source.width && y == if target.height > 1 then 1 else 0
  }

  /** A motion that crosses leaves through the edge it pushes out of, to the screen linked there, and lands just
      inside it at the proportional height or breadth; the barrier starts afresh. */
  lemma CrossingLands(r: RouterState, dx: I32, dy: I32, now: Option<U64>, e: Edge)
    requires r.Placed() && ValidTopology(r.topology)
    requires PushedOut(e, r.x, r.y, r.Size(), dx, dy) && r.Route(dx, dy, now).0.Cross?
    ensures var (route, next) := r.Route(dx, dy, now);
            && route == Cross(next.active, next.x, next.y) && next.topology == r.topology && next.barrier == Idle()
            && IsOnline(r.topology, next.active)
            && (exists p :: Linked(r.topology, ScreenEdge(r.active, e), p) && p.screenId == next.active)
            && LandsAt(e, next.x, next.y,
                 (Nearest(r.x + dx, r.Size().width), Nearest(r.y + dy, r.Size().height)),
                 r.Size(), SizeOf(r.topology, next.active))
  {
    PushedExact(r, dx, dy, e);
    var p := LinkedEdge(r.topology, r.active, e).value;
    LinkedEdgeExact(r.topology, r.active, e, p);
    var source, target := r.Size(), SizeOf(r.topology, p.screenId);
    ScaleAxisInRange(Nearest(r.x + dx, source.width), source.width, target.width);
    ScaleAxisInRange(Nearest(r.y + dy, source.height), source.height, target.height);
    hide ScaleAxis, ValidTopology, LinkedEdge, RouterState.Pushed, RouterState.Reached, Linked;
    LandingExact(e, r.x, r.y, dx, dy, source, target);
  }

  lemma LandingExact(e: Edge, x: I32, y: I32, dx: I32, dy: I32, source: ScreenSize, target: ScreenSize)
    ensures var (lx, ly) := Landing(e, SatAdd(x, dx), SatAdd(y, dy), source, target);
            LandsAt(e, lx, ly, (Nearest(x + dx, source.width), Nearest(y + dy, source.height)), source, target)
  {
    ScaleAxisInRange(Nearest(x + dx, source.width), source.width, target.width);
    ScaleAxisInRange(Nearest(y + dy, source.height), source.height, target.height);
    hide ScaleAxis;
  }

  /** A topology that is taken over, and a position that is set, put the cursor on the nearest pixel. */
  lemma PlacedNearest(r: RouterState, t: ScreenTopology, id: ScreenId, x: I32, y: I32)
    ensures r.Replaced(t).Success? <==> ValidTopology(t) && Knows(t, r.active)
    ensures r.Replaced(t).Success? ==>
              r.Replaced(t).value == RouterState(t, r.active, Nearest(r.x, SizeOf(t, r.active).width),
                Nearest(r.y, SizeOf(t, r.active).height), Idle())
    ensures r.Positioned(id, x, y).Success? <==> Knows(r.topology, id)
    ensures r.Positioned(id, x, y).Success? ==>
              r.Positioned(id, x, y).value == RouterState(r.topology, id, Nearest(x, SizeOf(r.topology, id).width),
                Nearest(y, SizeOf(r.topology, id).height), Idle())
  {
    CheckTopologyExact(t);
    hide ValidTopology, CheckTopology;
  }
}
