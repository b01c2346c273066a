/** Coordinates, link symmetry and the distance barrier of the topology router. */
module RouterGeometry {
  import opened MachineInts
  import opened Wrappers
  import opened ScreenModel
  import opened EdgeBarriers
  import opened TopologyRouting
  import opened RouterRuns

  // ---------- Scaling an axis ----------

  // Within range the quotient already lies on the target axis, so the clamp never acts.
  lemma ScaleAxisInRange(v: I32, from: I32, to: I32)
    requires 0 <= v < from && to > 0
    ensures ScaleAxis(v, from, to) == v * to / from
    ensures 0 <= ScaleAxis(v, from, to) < to
  {
    assert v * to <= (from - 1) * to;
    DivBound(v * to, from, to);
  }

  lemma DivBound(n: int, d: int, q: int)
    requires 0 <= n < d * q && d > 0
    ensures 0 <= n / d < q
  {
  }

  lemma MulMonotone(a: int, b: int, k: int)
    requires a <= b && k >= 0
    ensures a * k <= b * k
  {
  }

  lemma DivMonotone(m: int, n: int, d: int)
    requires m <= n && d > 0
    ensures m / d <= n / d
  {
    if m / d > n / d { MulMonotone(n / d + 1, m / d, d); }
  }

  lemma ScaleAxisMonotone(v: I32, w: I32, from: I32, to: I32)
    requires 0 <= v <= w < from && to > 0
    ensures ScaleAxis(v, from, to) <= ScaleAxis(w, from, to)
  {
    ScaleAxisInRange(v, from, to);
    ScaleAxisInRange(w, from, to);
    MulMonotone(v, w, to);
    DivMonotone(v * to, w * to, from);
  }

  /** Crossing over and back never moves the cursor forward, and moves it back by less than the
      rounding of the two divisions: at most one pixel when the other axis is not shorter. */
  lemma ScaleAxisThereAndBack(v: I32, from: I32, to: I32)
    requires 0 <= v < from && to > 0
    ensures var back := ScaleAxis(ScaleAxis(v, from, to), to, from);
            && back <= v
            && (v - back) * to < from + to
            && (to >= from ==> v - back <= 1)
  {
    ScaleAxisInRange(v, from, to);
    ScaleAxisInRange(ScaleAxis(v, from, to), to, from);
    ThereAndBack(v, from, to);
  }

  lemma ThereAndBack(v: int, from: int, to: int)
    requires 0 <= v < from && to > 0
    ensures var back := v * to / from * from / to;
            back <= v && (v - back) * to < from + to && (to >= from ==> v - back <= 1)
  {
    var there := v * to / from;
    var back := there * from / to;
    DivRemainder(v * to, from);
    DivRemainder(there * from, to);
    assert (v - back) * to == v * to - back * to;
    if back > v { MulMonotone(v + 1, back, to); }
    if v - back >= 2 { MulMonotone(2, v - back, to); }
  }

  lemma DivRemainder(n: int, d: int)
    requires d > 0
    ensures n / d * d <= n < n / d * d + d
  {
  }

  // ---------- The cursor stays on its screen ----------

  predicate Inside(r: RouterState)
    requires r.Placed()
  {
    0 <= r.x < r.Size().width && 0 <= r.y < r.Size().height
  }

  // Entering through the right or bottom edge of a screen aims two pixels before its end.
  predicate RoomToEnter(e: Edge, target: ScreenSize) {
    && (e == Left ==> target.width >= 2)
    && (e == Top ==> target.height >= 2)
  }

  lemma LandingInside(e: Edge, nextX: I32, nextY: I32, source: ScreenSize, target: ScreenSize)
    ensures var (x, y) := Landing(e, nextX, nextY, source, target);
            (0 <= x < target.width && 0 <= y < target.height) <==> RoomToEnter(e, target)
  {
  }

  // Before the motion: it pushes against a linked edge whose barrier is about to open.
  predicate WillCross(r: RouterState, dx: I32, dy: I32, now: Option<U64>)
    requires r.Placed()
  {
    var e := r.Pushed(dx, dy);
    r.Linked(e) && (if now.Some? then r.barrier.WaitElapsed(e.value, now.value)
                    else r.barrier.Push(e.value, Outward(e.value, dx, dy))).0
  }

  // The screen beyond the edge that the motion pushes against.
  function Beyond(r: RouterState, dx: I32, dy: I32): ScreenSize
    requires r.Placed() && r.Linked(r.Pushed(dx, dy))
  {
    SizeOf(r.topology, LinkedEdge(r.topology, r.active, r.Pushed(dx, dy).value).value.screenId)
  }

  /** After any motion, timed or not, from any position, the cursor is inside the active screen
      unless the barrier was about to let it left or up onto a screen one pixel long that way. */
  lemma RouteInsideExact(r: RouterState, dx: I32, dy: I32, now: Option<U64>)
    requires r.Placed()
    ensures var next := r.Route(dx, dy, now).1;
            && next.Placed()
            && (Inside(next) <==>
                  (WillCross(r, dx, dy, now) ==> RoomToEnter(r.Pushed(dx, dy).value, Beyond(r, dx, dy))))
  {
    RouteStaysPlaced(r, dx, dy, now);
    var e := r.Pushed(dx, dy);
    if r.Linked(e) {
      LandingInside(e.value, SatAdd(r.x, dx), SatAdd(r.y, dy), r.Size(), Beyond(r, dx, dy));
    }
    hide RouterState.Pushed, RouterState.Reached, ScaleAxis, Landing, RoomToEnter;
  }

  // ---------- The smallest linked topology, for counterexamples ----------

  function Example(id: ScreenId, device: DeviceId, size: ScreenSize, local: bool): ScreenNode {
    ScreenNode(id, device, device, id, size, None, true, local)
  }

  // Two screens, the second one beyond edge `e` of the first.
  function PairOf(a: ScreenNode, b: ScreenNode, e: Edge): ScreenTopology {
    ScreenTopology(0, [a, b], [ScreenLink(ScreenEdge(a.screenId, e), ScreenEdge(b.screenId, Opposite(e)))])
  }

  lemma PairIsLinked(a: ScreenNode, b: ScreenNode, e: Edge)
    requires a.screenId != b.screenId && !Blank(a.screenId) && !Blank(b.screenId) && a.online && b.online
    ensures var t := PairOf(a, b, e);
            && ValidTopology(t)
            && FindScreen(t.screens, a.screenId) == Some(a) && FindScreen(t.screens, b.screenId) == Some(b)
            && LinkedEdge(t, a.screenId, e) == Some(ScreenEdge(b.screenId, Opposite(e)))
            && LinkedEdge(t, b.screenId, Opposite(e)) == Some(ScreenEdge(a.screenId, e))
  {
    var t := PairOf(a, b, e);
    assert NodeIds(t.screens) == [a.screenId, b.screenId];
    assert a.screenId in NodeIds(t.screens) && b.screenId in NodeIds(t.screens);
    assert FindScreen(t.screens[1..], b.screenId) == Some(b);
    hide Blank;
  }

  // An ID that does not begin with white space is not blank.
  lemma NotBlank(id: ScreenId)
    requires id != "" && !IsWhitespace(id[0])
    ensures !Blank(id)
  {
  }

  const TEN: ScreenSize := Dimensions(10, 10)

  // Two timed motions that carry the cursor from the first of two such screens to the second.
  lemma TwoMotionsCross(a: ScreenNode, b: ScreenNode)
    requires a.screenId != b.screenId && !Blank(a.screenId) && !Blank(b.screenId) && a.online && b.online
    requires a.EffectiveSize() == b.EffectiveSize() == TEN
    ensures var t := PairOf(a, b, Right);
            var start := RouterState(t, a.screenId, 9, 5, Idle());
            var waiting := start.(barrier := Barrier(Some(Right), 0, Some(0)));
            && Opened(t, a.screenId, 9, 5) == Success(start) && start.Placed() && waiting.Placed()
            && start.Route(1, 0, Some(0)) == (Stay(a.screenId, 1, 0), waiting)
            && waiting.Route(1, 0, Some(250_000)) == (Cross(b.screenId, 1, 5), RouterState(t, b.screenId, 1, 5, Idle()))
  {
    PairIsLinked(a, b, Right);
    CheckTopologyExact(PairOf(a, b, Right));
    hide PairOf, LinkedEdge, ValidTopology, Blank;
  }

  /** An input that puts the cursor outside: crossing left onto a screen one pixel wide lands at -1. */
  lemma OnePixelScreenIsMissed()
    ensures var a, b := Example("a", "a", Dimensions(10, 10), true), Example("b", "b", Dimensions(1, 10), false);
            var r := RouterState(PairOf(a, b, Left), "a", 0, 5, Idle());
            r.Placed() && Inside(r) && r.Route(-8, 0, None).0 == Cross("b", -1, 5)
  {
    NotBlank("a");
    NotBlank("b");
    PairIsLinked(Example("a", "a", Dimensions(10, 10), true), Example("b", "b", Dimensions(1, 10), false), Left);
    hide PairOf, LinkedEdge, ValidTopology;
  }

  predicate Roomy(t: ScreenTopology) {
    forall s | s in t.screens :: s.EffectiveSize().width >= 2 && s.EffectiveSize().height >= 2
  }

  // Timed events and untimed motions, in any mixture.
  datatype AnyEvent = Timed(event: RouterEvent) | Untimed(dx: I32, dy: I32)

  function AfterAny(r: RouterState, ev: AnyEvent): (r': RouterState)
    requires r.Placed()
    ensures r'.Placed()
  {
    match ev
    case Timed(event) => After(r, event)
    case Untimed(dx, dy) => RouteStaysPlaced(r, dx, dy, None); r.Route(dx, dy, None).1
  }

  function AnyAt(r: RouterState, evs: seq<AnyEvent>, n: nat): (r': RouterState)
    requires r.Placed() && n <= |evs|
    ensures r'.Placed()
  {
    if n == 0 then r else AfterAny(AnyAt(r, evs, n - 1), evs[n - 1])
  }

  lemma RoomyTarget(r: RouterState, dx: I32, dy: I32, now: Option<U64>)
    requires r.Placed() && Roomy(r.topology)
    ensures Inside(r.Route(dx, dy, now).1)
  {
    RouteInsideExact(r, dx, dy, now);
    if r.Linked(r.Pushed(dx, dy)) {
      FindScreenExact(r.topology.screens, LinkedEdge(r.topology, r.active, r.Pushed(dx, dy).value).value.screenId);
    }
    hide RouterState.Route, RouterState.Pushed, RouterState.Reached, LinkedEdge, Inside, WillCross;
  }

  /** While every topology in force has screens of at least two pixels each way, the cursor is always
      inside the active screen, in timed runs, untimed runs and mixtures of both. */
  lemma {:induction false} AlwaysInside(r: RouterState, evs: seq<AnyEvent>, n: nat)
    requires r.Placed() && Inside(r) && n <= |evs|
    requires forall k | 0 <= k <= n :: Roomy(AnyAt(r, evs, k).topology)
    ensures Inside(AnyAt(r, evs, n))
  {
    hide RouterState.Route, RouterState.Pushed, RouterState.Reached, Roomy;
    if n > 0 {
      AlwaysInside(r, evs, n - 1);
      var s, ev := AnyAt(r, evs, n - 1), evs[n - 1];
      if ev.Untimed? {
        RoomyTarget(s, ev.dx, ev.dy, None);
      } else if ev.event.Motion? {
        RoomyTarget(s, ev.event.dx, ev.event.dy, Some(ev.event.now));
      }
    }
  }

  // ---------- Links lead back ----------

  lemma OneLinkPerEdge(links: seq<ScreenLink>, known: set<ScreenId>, a: ScreenLink, b: ScreenLink, e: ScreenEdge)
    requires ValidLinks(links, known) && a in links && b in links && Touches(a, e) && Touches(b, e)
    ensures a == b
  {
  }

  lemma {:induction false} OnlyLinkFound(t: ScreenTopology, links: seq<ScreenLink>, link: ScreenLink, e: ScreenEdge)
    requires Touches(link, e) && forall l | l in links && Touches(l, e) :: l == link
    ensures FindPeer(t, links, e) == if link in links then PeerOf(t, link, e) else None
  {
    if links != [] {
      assert links[0] in links && forall l :: l in links <==> l == links[0] || l in links[1..];
      OnlyLinkFound(t, links[1..], link, e);
    }
  }

  /** In a valid topology a linked edge faces the edge it was reached from, and while the first
      screen is online it leads straight back. */
  lemma LinkedEdgeInvolution(t: ScreenTopology, a: ScreenId, e: Edge)
    requires ValidTopology(t) && LinkedEdge(t, a, e).Some?
    ensures var p := LinkedEdge(t, a, e).value;
            && IsOnline(t, p.screenId) && p.edge == Opposite(e)
            && LinkedEdge(t, p.screenId, p.edge) == if IsOnline(t, a) then Some(ScreenEdge(a, e)) else None
  {
    hide ValidIds, NodeIds, Clash;
    var source, p := ScreenEdge(a, e), LinkedEdge(t, a, e).value;
    var known := Elements(NodeIds(t.screens));
    FindPeerExact(t, t.links, source);
    var link :| link in t.links && PeerOf(t, link, source) == Some(p);
    assert WellFormedLink(link, known);
    forall l | l in t.links && Touches(l, p) ensures l == link {
      OneLinkPerEdge(t.links, known, l, link, p);
    }
    OnlyLinkFound(t, t.links, link, p);
  }

  // ---------- The untimed barrier measures distance ----------

  datatype Shift = Shift(dx: I32, dy: I32)

  // A motion straight out of edge `e`.
  predicate StraightOut(e: Edge, m: Shift) {
    match e
    case Left => m.dx < 0 && m.dy == 0
    case Right => m.dx > 0 && m.dy == 0
    case Top => m.dx == 0 && m.dy < 0
    case Bottom => m.dx == 0 && m.dy > 0
  }

  // How far the first `n` motions go out of edge `e`.
  function Distance(e: Edge, ms: seq<Shift>, n: nat): nat
    requires n <= |ms| && forall i | 0 <= i < |ms| :: StraightOut(e, ms[i])
  {
    if n == 0 then 0 else Distance(e, ms, n - 1) + Outward(e, ms[n - 1].dx, ms[n - 1].dy)
  }

  // The untimed router before motion `n`.
  function UntimedAt(r: RouterState, ms: seq<Shift>, n: nat): (r': RouterState)
    requires r.Placed() && n <= |ms|
    ensures r'.Placed()
  {
    if n == 0 then r
    else
      var s, m := UntimedAt(r, ms, n - 1), ms[n - 1];
      RouteStaysPlaced(s, m.dx, m.dy, None);
      s.Route(m.dx, m.dy, None).1
  }

  // The cursor waiting at edge `e` after being pushed `d` pixels into it.
  function PushedBy(r: RouterState, e: Edge, d: nat): RouterState
    requires d < 8
  {
    r.(barrier := if d == 0 then Idle() else Barrier(Some(e), d, None))
  }

  lemma OutwardStep(r: RouterState, e: Edge, d: nat, m: Shift)
    requires r.Placed() && Inside(r) && OnEdge(r, e) && r.Linked(Some(e)) && StraightOut(e, m)
    requires d < 8
    ensures var (route, next) := PushedBy(r, e, d).Route(m.dx, m.dy, None);
            var total := d + Outward(e, m.dx, m.dy);
            && (route.Cross? <==> total >= 8)
            && next == if total >= 8 then r.Entered(e, 0, 0) else PushedBy(r, e, total)
  {
    OutwardIsPushed(r, e, m);
    OutwardStays(r, e, m);
    hide ScaleAxis, RouterState.Pushed, RouterState.Reached, LinkedEdge, OnEdge, Inside, StraightOut;
  }

  lemma OutwardIsPushed(r: RouterState, e: Edge, m: Shift)
    requires r.Placed() && Inside(r) && OnEdge(r, e) && StraightOut(e, m)
    ensures r.Pushed(m.dx, m.dy) == Some(e) && Outward(e, m.dx, m.dy) > 0
  {
  }

  // Pushed straight against the edge the cursor neither moves nor lands elsewhere than from where it is.
  lemma OutwardStays(r: RouterState, e: Edge, m: Shift)
    requires r.Placed() && Inside(r) && OnEdge(r, e) && StraightOut(e, m) && r.Linked(Some(e))
    ensures r.MovedBy(m.dx, m.dy) == r && r.Entered(e, m.dx, m.dy) == r.Entered(e, 0, 0)
  {
    hide ScaleAxis, LinkedEdge;
  }

  /** From an idle barrier at a linked edge, motions straight out of the edge cross exactly when the
      distance they add up to first reaches eight pixels, and land on the same pixel however that
      distance is divided. */
  lemma {:induction false} BarrierMeasuresDistance(r: RouterState, e: Edge, ms: seq<Shift>, n: nat)
    requires r.Placed() && Inside(r) && OnEdge(r, e) && r.Linked(Some(e)) && r.barrier == Idle()
    requires n <= |ms| && forall i | 0 <= i < |ms| :: StraightOut(e, ms[i])
    requires n > 0 ==> Distance(e, ms, n - 1) < 8
    ensures UntimedAt(r, ms, n) == if Distance(e, ms, n) >= 8 then r.Entered(e, 0, 0)
            else PushedBy(r, e, Distance(e, ms, n))
    ensures n > 0 ==> (UntimedAt(r, ms, n - 1).Route(ms[n - 1].dx, ms[n - 1].dy, None).0.Cross?
            <==> Distance(e, ms, n) >= 8)
  {
    hide OnEdge, Inside, RouterState.Linked, RouterState.Route, RouterState.Entered;
    if n > 0 {
      BarrierMeasuresDistance(r, e, ms, n - 1);
      OutwardStep(r, e, Distance(e, ms, n - 1), ms[n - 1]);
    }
  }
}
