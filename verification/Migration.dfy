/** Migrating the legacy direction into a layout, and what that does to routing. */
module Migration {
  import opened MachineInts
  import opened Wrappers
  import opened ScreenModel
  import opened EdgeBarriers
  import opened TopologyRouting
  import opened CursorRouting
  import opened Sequences
  import opened LayoutModel
  import opened LayoutProperties
  import opened RouterGeometry

  datatype MigrationFault =
    | NoLocalScreen
    | NotOneOnlineRemote
    | DiagonalDirection
    | Rejected(error: LayoutError)

  // The primary screen of this device, or else its first one.
  function LocalAnchor(inv: ScreenInventory): Option<ScreenDescriptor> {
    var primary := FirstWhere((s: ScreenDescriptor) => s.thisDevice && s.primary, inv);
    if primary.Some? then primary else FirstWhere((s: ScreenDescriptor) => s.thisDevice, inv)
  }

  function OnlineRemotes(inv: ScreenInventory): seq<ScreenDescriptor> {
    Retain((s: ScreenDescriptor) => !s.thisDevice && s.online, inv)
  }

  function PositionOf(d: ScreenDirection): Option<RelativePosition> {
    match d
    case Left => Some(LeftOf)
    case Right => Some(RightOf)
    case Top => Some(Above)
    case Bottom => Some(Below)
    case _ => None
  }

  function MigrateLegacyDirection(l: ScreenLayout, inv: ScreenInventory, d: ScreenDirection)
    : Result<ScreenLayout, MigrationFault>
  {
    if LocalAnchor(inv).None? then Failure(NoLocalScreen)
    else if |OnlineRemotes(inv)| != 1 then Failure(NotOneOnlineRemote)
    else if PositionOf(d).None? then Failure(DiagonalDirection)
    else
      var r := Apply(l, inv, Place(OnlineRemotes(inv)[0].screenId, LocalAnchor(inv).value.screenId,
          PositionOf(d).value, false));
      if r.Success? then Success(r.value) else Failure(Rejected(r.error))
  }

  // ---------- The topology a migration produces ----------

  // The edge of the local screen that leads to a screen in direction `d`.
  function ExitEdge(d: ScreenDirection): Edge
    requires PositionOf(d).Some?
  {
    PlacementEdges(PositionOf(d).value).0
  }

  // Two online screens joined by a single link in direction `d`.
  predicate TwoScreens(t: ScreenTopology, local: ScreenId, remote: ScreenId, d: ScreenDirection) {
    && local != remote && IsOnline(t, local) && IsOnline(t, remote)
    && PositionOf(d).Some?
    && t.links == [ScreenLink(ScreenEdge(local, ExitEdge(d)), ScreenEdge(remote, Opposite(ExitEdge(d))))]
  }

  lemma ResolvedOnline(l: ScreenLayout, inv: ScreenInventory, s: ScreenDescriptor)
    requires ValidLayout(l, inv) && s in inv
    ensures Resolve(l, inv).Success? && Knows(Resolve(l, inv).value, s.screenId)
    ensures IsOnline(Resolve(l, inv).value, s.screenId) <==> s.online
  {
    ResolvedIsValid(l, inv);
    var t := Resolve(l, inv).value;
    var i :| 0 <= i < |inv| && inv[i] == s;
    FindsItself(t.screens, i);
  }

  /** Migrating into an empty layout produces two screens joined in the legacy direction, provided that
      the local screen is online. */
  lemma MigratedTopology(l: ScreenLayout, inv: ScreenInventory, d: ScreenDirection)
    requires l.links == [] && MigrateLegacyDirection(l, inv, d).Success?
    requires LocalAnchor(inv).value.online
    ensures var migrated := MigrateLegacyDirection(l, inv, d).value;
            var t := Resolve(migrated, inv);
            && t.Success? && ValidTopology(t.value)
            && TwoScreens(t.value, LocalAnchor(inv).value.screenId, OnlineRemotes(inv)[0].screenId, d)
  {
    var local, remote := LocalAnchor(inv).value, OnlineRemotes(inv)[0];
    var migrated := MigrateLegacyDirection(l, inv, d).value;
    MigrationParties(inv);
    var c := Place(remote.screenId, local.screenId, PositionOf(d).value, false);
    ApplyExact(l, inv, c);
    ResolvedIsValid(migrated, inv);
    ResolvedOnline(migrated, inv, local);
    ResolvedOnline(migrated, inv, remote);
    hide Apply, ValidLayout, ValidTopology, CheckLayout, NodesFor, IsOnline, LocalAnchor, OnlineRemotes, KnownIds;
  }

  /** The host stores a migrated layout by replacing the layout it came from, which changes nothing:
      what is stored is the migrated layout, revision included. */
  lemma MigrationIsStored(l: ScreenLayout, inv: ScreenInventory, d: ScreenDirection)
    requires MigrateLegacyDirection(l, inv, d).Success?
    ensures var migrated := MigrateLegacyDirection(l, inv, d).value;
            Apply(l, inv, Replace(migrated)) == Success(migrated)
  {
    var migrated := MigrateLegacyDirection(l, inv, d).value;
    ApplyExact(l, inv, Place(OnlineRemotes(inv)[0].screenId, LocalAnchor(inv).value.screenId, PositionOf(d).value,
        false));
    ApplyExact(l, inv, Replace(migrated));
    hide Apply, ValidLayout, LocalAnchor, OnlineRemotes;
  }

  lemma MigrationParties(inv: ScreenInventory)
    requires LocalAnchor(inv).Some? && |OnlineRemotes(inv)| == 1
    ensures LocalAnchor(inv).value in inv && LocalAnchor(inv).value.thisDevice
    ensures OnlineRemotes(inv)[0] in inv && OnlineRemotes(inv)[0].online && !OnlineRemotes(inv)[0].thisDevice
  {
    FirstWhereFound((s: ScreenDescriptor) => s.thisDevice && s.primary, inv);
    FirstWhereFound((s: ScreenDescriptor) => s.thisDevice, inv);
    RetainMembers((s: ScreenDescriptor) => !s.thisDevice && s.online, inv);
    assert OnlineRemotes(inv)[0] in OnlineRemotes(inv);
  }

  // Screens of a valid inventory with the same ID are the same screen.
  lemma SameIdSameScreen(inv: ScreenInventory, a: ScreenDescriptor, b: ScreenDescriptor)
    requires ValidInventory(inv) && a in inv && b in inv && a.screenId == b.screenId
    ensures a == b
  {
    var i :| 0 <= i < |inv| && inv[i] == a;
    var j :| 0 <= j < |inv| && inv[j] == b;
    assert InventoryIds(inv)[i] == InventoryIds(inv)[j];
  }

  lemma OneLinkOnly(t: ScreenTopology, from: ScreenEdge, to: ScreenEdge, id: ScreenId, e: Edge)
    requires t.links == [ScreenLink(from, to)] && from.screenId != to.screenId
    ensures id != from.screenId && id != to.screenId ==> LinkedEdge(t, id, e).None?
    ensures id == to.screenId && !IsOnline(t, from.screenId) ==> LinkedEdge(t, id, e).None?
  {
    assert FindPeer(t, t.links[1..], ScreenEdge(id, e)) == None;
  }

  // What a migration into an empty layout resolves to.
  lemma MigratedLinks(l: ScreenLayout, inv: ScreenInventory, d: ScreenDirection)
    requires l.links == [] && MigrateLegacyDirection(l, inv, d).Success?
    ensures var migrated := MigrateLegacyDirection(l, inv, d).value;
            && ValidInventory(inv) && ValidLayout(migrated, inv)
            && Resolve(migrated, inv).Success? && ValidTopology(Resolve(migrated, inv).value)
            && Resolve(migrated, inv).value.links
                 == [ScreenLink(ScreenEdge(LocalAnchor(inv).value.screenId, ExitEdge(d)),
                                                                 ScreenEdge(OnlineRemotes(inv)[0].screenId,
                                                                     Opposite(ExitEdge(d))))]
  {
    hide LocalAnchor, OnlineRemotes, ValidTopology, CheckLayout, NodesFor, KnownIds, Apply, ValidInventory,
      ValidLinks, ValidOverrides;
    var local, remote := LocalAnchor(inv).value, OnlineRemotes(inv)[0];
    ApplyExact(l, inv, Place(remote.screenId, local.screenId, PositionOf(d).value, false));
    ResolvedIsValid(MigrateLegacyDirection(l, inv, d).value, inv);
  }

  /** A migrated layout has a single link, between the anchor and the remote screen: any other screen of
      this device has no way out, and with the anchor offline the remote screen has no way back. */
  lemma OnlyTheAnchorIsLinked(l: ScreenLayout, inv: ScreenInventory, d: ScreenDirection, s: ScreenDescriptor, e: Edge)
    requires l.links == [] && MigrateLegacyDirection(l, inv, d).Success? && s in inv
    ensures var resolved := Resolve(MigrateLegacyDirection(l, inv, d).value, inv);
            && ValidInventory(inv) && resolved.Success? && ValidTopology(resolved.value)
                 && Knows(resolved.value, s.screenId)
            && (s.thisDevice && s != LocalAnchor(inv).value ==> LinkedEdge(resolved.value, s.screenId, e).None?)
            && (!LocalAnchor(inv).value.online ==> LinkedEdge(resolved.value, OnlineRemotes(inv)[0].screenId, e).None?)
  {
    assert LocalAnchor(inv).Some? && |OnlineRemotes(inv)| == 1;
    hide Resolve, ValidLayout, ValidTopology, ValidInventory, IsOnline, Knows, LocalAnchor, OnlineRemotes, LinkedEdge,
      MigrateLegacyDirection;
    var local, remote := LocalAnchor(inv).value, OnlineRemotes(inv)[0];
    var migrated := MigrateLegacyDirection(l, inv, d).value;
    MigrationParties(inv);
    MigratedLinks(l, inv, d);
    ResolvedOnline(migrated, inv, local);
    ResolvedOnline(migrated, inv, s);
    if s.screenId == local.screenId { SameIdSameScreen(inv, s, local); }
    if s.screenId == remote.screenId { SameIdSameScreen(inv, s, remote); }
    if local.screenId == remote.screenId { SameIdSameScreen(inv, local, remote); }
    var t, from, to := Resolve(migrated, inv).value, ScreenEdge(local.screenId, ExitEdge(d)),
        ScreenEdge(remote.screenId, Opposite(ExitEdge(d)));
    OneLinkOnly(t, from, to, s.screenId, e);
    OneLinkOnly(t, from, to, remote.screenId, e);
  }

  // ---------- The legacy router seen as a router over that topology ----------

  function ScreenOf(a: ActiveScreen, local: ScreenId, remote: ScreenId): ScreenId {
    if a.LocalScreen? then local else remote
  }

  function EdgeFrom(a: ActiveScreen, d: ScreenDirection): Edge
    requires PositionOf(d).Some?
  {
    if a.LocalScreen? then ExitEdge(d) else Opposite(ExitEdge(d))
  }

  function LiftBarrier(c: CursorState): Barrier<Edge>
    requires PositionOf(c.direction).Some?
  {
    Barrier(if c.barrier.edge.Some? then Some(EdgeFrom(c.active, c.direction))
        else None, c.barrier.distance, c.barrier.since)
  }

  function Lift(c: CursorState, t: ScreenTopology, local: ScreenId, remote: ScreenId): RouterState
    requires PositionOf(c.direction).Some?
  {
    RouterState(t, ScreenOf(c.active, local, remote), c.x, c.y, LiftBarrier(c))
  }

  function LiftRoute(route: CursorRoute, local: ScreenId, remote: ScreenId): Route {
    match route
    case LocalMotion(dx, dy) => Stay(local, dx, dy)
    case RemoteMotion(dx, dy) => Stay(remote, dx, dy)
    case EnterRemote(x, y) => Cross(remote, x, y)
    case EnterLocal(x, y) => Cross(local, x, y)
  }

  // The legacy router is set up for the two screens and its barrier is for its own direction.
  predicate Matches(c: CursorState, t: ScreenTopology, local: ScreenId, remote: ScreenId) {
    && TwoScreens(t, local, remote, c.direction)
    && c.local == SizeOf(t, local) && c.remote == SizeOf(t, remote)
    && (c.barrier.edge.Some? ==> c.barrier.edge == Some(c.direction))
    && 0 <= c.barrier.distance < BARRIER_DISTANCE
    && (c.barrier.edge.None? ==> c.barrier == Idle())
  }

  // The cursor sits on the left or right border and is pushed out of it.
  predicate Sideways(c: CursorState, dx: I32, dy: I32) {
    (c.x == 0 && dx < 0) || (c.x == c.Size().width - 1 && dx > 0)
  }

  // A push into a corner: out through the shared vertical-direction edge and sideways at once.
  predicate CornerPush(c: CursorState, dx: I32, dy: I32) {
    (c.direction.Top? || c.direction.Bottom?) && Sideways(c, dx, dy) && c.OutwardBy(dx, dy).Some?
  }

  lemma LinksOfTwoScreens(t: ScreenTopology, local: ScreenId, remote: ScreenId, d: ScreenDirection, a: ActiveScreen,
                          e: Edge)
    requires TwoScreens(t, local, remote, d)
    ensures var other := if a.LocalScreen? then RemoteScreen else LocalScreen;
            LinkedEdge(t, ScreenOf(a, local, remote), e)
            == if e == EdgeFrom(a, d) then Some(ScreenEdge(ScreenOf(other, local, remote), EdgeFrom(other, d)))
                else None
  {
    assert FindPeer(t, t.links[1..], ScreenEdge(ScreenOf(a, local, remote), e)) == None;
  }

  // Which edge the topology router sees pushed, in terms of the legacy router's test.
  lemma PushedMatchesOutward(c: CursorState, t: ScreenTopology, local: ScreenId, remote: ScreenId, dx: I32, dy: I32)
    requires Matches(c, t, local, remote)
    ensures var r, e := Lift(c, t, local, remote), EdgeFrom(c.active, c.direction);
            && r.Placed() && r.Size() == c.Size()
            && (r.Linked(r.Pushed(dx, dy)) <==> c.OutwardBy(dx, dy).Some? && !CornerPush(c, dx, dy))
            && (r.Linked(r.Pushed(dx, dy)) ==>
                  r.Pushed(dx, dy) == Some(e) && c.OutwardBy(dx, dy) == Some(Outward(e, dx, dy)))
  {
    var r := Lift(c, t, local, remote);
    forall e { LinksOfTwoScreens(t, local, remote, c.direction, c.active, e); }
    hide LinkedEdge;
  }

  lemma CrossedMatchesEntered(c: CursorState, t: ScreenTopology, local: ScreenId, remote: ScreenId, dx: I32, dy: I32)
    requires Matches(c, t, local, remote)
    ensures var r, e := Lift(c, t, local, remote), EdgeFrom(c.active, c.direction);
            && r.Placed() && r.Linked(Some(e))
            && r.Entered(e, dx, dy) == Lift(c.Crossed(dx, dy), t, local, remote)
            && Matches(c.Crossed(dx, dy), t, local, remote)
  {
    LinksOfTwoScreens(t, local, remote, c.direction, c.active, EdgeFrom(c.active, c.direction));
    hide ScaleAxis, LinkedEdge;
  }

  /** One motion: the routers give the same route and the same next state exactly when the motion is
      not a corner push, which for a left or right neighbour it never is. */
  lemma MigrationStepExact(c: CursorState, t: ScreenTopology, local: ScreenId, remote: ScreenId, dx: I32, dy: I32)
    requires Matches(c, t, local, remote)
    ensures var (legacy, c') := c.Route(dx, dy);
            && Matches(c', t, local, remote)
            && Lift(c, t, local, remote).Placed()
            && (Lift(c, t, local, remote).Route(dx, dy, None)
                 == (LiftRoute(legacy, local, remote), Lift(c', t, local, remote))
                <==> !CornerPush(c, dx, dy))
  {
    hide RouterState.Pushed, RouterState.Entered, CursorState.Crossed, OutwardDistance, RouterState.Linked,
      LinkedEdge, ScaleAxis, Outward;
    PushedMatchesOutward(c, t, local, remote, dx, dy);
    CrossedMatchesEntered(c, t, local, remote, dx, dy);
  }

  // ---------- The timed router beside the legacy one ----------

  // The two routers are set up for the same two screens, whatever their barriers hold.
  predicate Arranged(c: CursorState, t: ScreenTopology, local: ScreenId, remote: ScreenId) {
    TwoScreens(t, local, remote, c.direction) && c.local == SizeOf(t, local) && c.remote == SizeOf(t, remote)
  }

  // The cursor is on the same screen at the same point.
  predicate SamePlace(c: CursorState, r: RouterState, t: ScreenTopology, local: ScreenId, remote: ScreenId) {
    r.topology == t && r.active == ScreenOf(c.active, local, remote) && r.x == c.x && r.y == c.y
  }

  // The distance pushed is about to open the legacy router's barrier.
  predicate LegacyOpens(c: CursorState, dx: I32, dy: I32) {
    var outward := c.OutwardBy(dx, dy);
    outward.Some? && c.barrier.Push(c.direction, outward.value).0
  }

  // Where a motion would lead does not depend on the barrier.
  lemma BarrierIsAside(r: RouterState, b: Barrier<Edge>, dx: I32, dy: I32)
    requires r.Placed()
    ensures var s := r.(barrier := b);
            && s.Placed() && s.Pushed(dx, dy) == r.Pushed(dx, dy)
                 && s.Linked(s.Pushed(dx, dy)) == r.Linked(r.Pushed(dx, dy))
            && (r.Linked(r.Pushed(dx, dy)) ==>
                  s.Entered(r.Pushed(dx, dy).value, dx, dy) == r.Entered(r.Pushed(dx, dy).value, dx, dy))
  {
    hide LinkedEdge, ScaleAxis, Landing;
  }

  // What the two routers have in common when their cursors are at the same place.
  lemma SamePlaceSameWay(c: CursorState, r: RouterState, t: ScreenTopology, local: ScreenId, remote: ScreenId,
                         dx: I32, dy: I32)
    requires Arranged(c, t, local, remote) && SamePlace(c, r, t, local, remote)
    ensures r.Placed() && r.Size() == c.Size()
    ensures r.Linked(r.Pushed(dx, dy)) ==>
              && c.OutwardBy(dx, dy).Some?
              && SamePlace(c.Crossed(dx, dy), r.Entered(r.Pushed(dx, dy).value, dx, dy), t, local, remote)
  {
    hide LinkedEdge, ScaleAxis, RouterState.Pushed, RouterState.Linked, RouterState.Entered, CornerPush;
    var c0 := c.(barrier := Idle());
    assert Matches(c0, t, local, remote) && r.(barrier := Idle()) == Lift(c0, t, local, remote);
    MatchesIsPlaced(c0, t, local, remote);
    BarrierIsAside(r, Idle(), dx, dy);
    PushedMatchesOutward(c0, t, local, remote, dx, dy);
    CrossedMatchesEntered(c0, t, local, remote, dx, dy);
  }

  /** One timed motion from the same place, whatever the two barriers hold: the timed router goes the
      way of the legacy one if and only if the delay lets the cursor through exactly when the distance
      does, and then both come to the same place. */
  lemma TimedStepExact(c: CursorState, r: RouterState, t: ScreenTopology, local: ScreenId, remote: ScreenId, dx: I32,
                       dy: I32, now: U64)
    requires Arranged(c, t, local, remote) && SamePlace(c, r, t, local, remote)
    ensures r.Placed()
    ensures var (legacy, c') := c.Route(dx, dy);
            var (route, r') := r.Route(dx, dy, Some(now));
            && (route == LiftRoute(legacy, local, remote) <==>
                  (WillCross(r, dx, dy, Some(now)) <==> LegacyOpens(c, dx, dy)))
            && (route == LiftRoute(legacy, local, remote) ==> SamePlace(c', r', t, local, remote))
            && Arranged(c', t, local, remote)
  {
    SamePlaceSameWay(c, r, t, local, remote, dx, dy);
    hide LinkedEdge, ScaleAxis, RouterState.Pushed, RouterState.Reached, RouterState.Linked, RouterState.Entered,
      CursorState.OutwardBy;
  }

  // ---------- Whole runs ----------

  function LegacyAt(c: CursorState, ms: seq<Shift>, n: nat): CursorState
    requires n <= |ms|
  {
    if n == 0 then c else LegacyAt(c, ms, n - 1).Route(ms[n - 1].dx, ms[n - 1].dy).1
  }

  lemma {:induction false} StatesAgree(c: CursorState, t: ScreenTopology, local: ScreenId, remote: ScreenId,
                                       ms: seq<Shift>, n: nat)
    requires Matches(c, t, local, remote) && n <= |ms|
    requires forall k | 0 <= k < n :: !CornerPush(LegacyAt(c, ms, k), ms[k].dx, ms[k].dy)
    ensures Lift(c, t, local, remote).Placed()
    ensures Matches(LegacyAt(c, ms, n), t, local, remote)
    ensures UntimedAt(Lift(c, t, local, remote), ms, n) == Lift(LegacyAt(c, ms, n), t, local, remote)
  {
    hide Matches, CornerPush, RouterState.Route, CursorState.Route, Lift, LiftRoute;
    if n == 0 {
      MatchesIsPlaced(c, t, local, remote);
    } else {
      StatesAgree(c, t, local, remote, ms, n - 1);
      MigrationStepExact(LegacyAt(c, ms, n - 1), t, local, remote, ms[n - 1].dx, ms[n - 1].dy);
    }
  }

  /** As long as no motion is a corner push, the migrated topology is routed motion for motion as the
      legacy router would. */
  lemma {:induction false} MigrationPreservesRouting(c: CursorState, t: ScreenTopology, local: ScreenId,
                                                     remote: ScreenId, ms: seq<Shift>)
    requires Matches(c, t, local, remote)
    requires forall k | 0 <= k < |ms| :: !CornerPush(LegacyAt(c, ms, k), ms[k].dx, ms[k].dy)
    ensures Lift(c, t, local, remote).Placed()
    ensures forall k | 0 <= k < |ms| ::
              UntimedAt(Lift(c, t, local, remote), ms, k).Route(ms[k].dx, ms[k].dy, None).0
              == LiftRoute(LegacyAt(c, ms, k).Route(ms[k].dx, ms[k].dy).0, local, remote)
  {
    hide Matches, CornerPush, RouterState.Route, CursorState.Route, Lift, LiftRoute;
    MatchesIsPlaced(c, t, local, remote);
    forall k | 0 <= k < |ms|
      ensures UntimedAt(Lift(c, t, local, remote), ms, k).Route(ms[k].dx, ms[k].dy, None).0
              == LiftRoute(LegacyAt(c, ms, k).Route(ms[k].dx, ms[k].dy).0, local, remote)
    {
      StatesAgree(c, t, local, remote, ms, k);
      MigrationStepExact(LegacyAt(c, ms, k), t, local, remote, ms[k].dx, ms[k].dy);
    }
  }

  lemma MatchesIsPlaced(c: CursorState, t: ScreenTopology, local: ScreenId, remote: ScreenId)
    requires Matches(c, t, local, remote)
    ensures PositionOf(c.direction).Some? && Lift(c, t, local, remote).Placed()
  {
  }

  lemma RouteKeepsDirection(c: CursorState, dx: I32, dy: I32)
    ensures c.Route(dx, dy).1.direction == c.direction
  {
  }

  lemma {:induction false} LegacyKeepsDirection(c: CursorState, ms: seq<Shift>, n: nat)
    requires n <= |ms|
    ensures LegacyAt(c, ms, n).direction == c.direction
  {
    hide CursorState.Route;
    if n > 0 {
      LegacyKeepsDirection(c, ms, n - 1);
      RouteKeepsDirection(LegacyAt(c, ms, n - 1), ms[n - 1].dx, ms[n - 1].dy);
    }
  }

  // To the left or right nothing is ever a corner push, so there the agreement is unconditional.
  lemma {:induction false} SidewaysNeverCorners(c: CursorState, ms: seq<Shift>, n: nat)
    requires n < |ms| && (c.direction.Left? || c.direction.Right?)
    ensures !CornerPush(LegacyAt(c, ms, n), ms[n].dx, ms[n].dy)
  {
    hide LegacyAt, CursorState.OutwardBy;
    LegacyKeepsDirection(c, ms, n);
  }

  // Pushing straight out through the shared edge by `d` pixels.
  function StraightPush(a: ActiveScreen, d: ScreenDirection, distance: I32): Shift
    requires PositionOf(d).Some? && distance > 0
  {
    match EdgeFrom(a, d)
    case Left => Shift(-distance, 0)
    case Right => Shift(distance, 0)
    case Top => Shift(0, -distance)
    case Bottom => Shift(0, distance)
  }

  // After a corner push the routers differ only in that one has accumulated distance.
  lemma CornerPushOutcome(c: CursorState, t: ScreenTopology, local: ScreenId, remote: ScreenId, dx: I32, dy: I32)
    requires Matches(c, t, local, remote) && CornerPush(c, dx, dy)
    ensures var (legacy, c') := c.Route(dx, dy);
            var r := Lift(c, t, local, remote);
            && r.Placed()
            && var (route, r') := r.Route(dx, dy, None);
            && route.Stay?
            && (!legacy.EnterRemote? && !legacy.EnterLocal? ==>
                  && r' == Lift(c', t, local, remote).(barrier := Idle())
                  && c'.barrier.distance > 0
                  && OnExitEdge(c'))
  {
    PushedMatchesOutward(c, t, local, remote, dx, dy);
    hide LinkedEdge, ScaleAxis, RouterState.Pushed, RouterState.Linked;
  }

  predicate OnExitEdge(c: CursorState)
    requires PositionOf(c.direction).Some?
  {
    match EdgeFrom(c.active, c.direction)
    case Left => c.x == 0
    case Right => c.x == c.Size().width - 1
    case Top => c.y == 0
    case Bottom => c.y == c.Size().height - 1
  }

  lemma StraightPushOutcome(c: CursorState, t: ScreenTopology, local: ScreenId, remote: ScreenId)
    requires Matches(c, t, local, remote) && OnExitEdge(c) && c.barrier.distance > 0
    ensures var m := StraightPush(c.active, c.direction, BARRIER_DISTANCE - c.barrier.distance);
            var r := Lift(c, t, local, remote).(barrier := Idle());
            && c.Route(m.dx, m.dy).1 == c.Crossed(m.dx, m.dy)
            && r.Placed() && r.Route(m.dx, m.dy, None).0.Stay?
  {
    var d := BARRIER_DISTANCE - c.barrier.distance;
    var m, c0 := StraightPush(c.active, c.direction, d), c.(barrier := Idle());
    StraightPushIsOutward(c, d);
    StraightPushIsOutward(c0, d);
    PushedMatchesOutward(c0, t, local, remote, m.dx, m.dy);
    hide LinkedEdge, ScaleAxis, RouterState.Pushed, RouterState.Linked, CornerPush, Outward, OutwardDistance,
      OnExitEdge, CursorState.OutwardBy, RouterState.Reached, StraightPush;
  }

  lemma StraightPushIsOutward(c: CursorState, d: I32)
    requires PositionOf(c.direction).Some? && OnExitEdge(c) && d > 0
    ensures var m := StraightPush(c.active, c.direction, d);
            c.OutwardBy(m.dx, m.dy) == Some(d) && !CornerPush(c, m.dx, m.dy)
  {
  }

  /** A corner push tells the routers apart: either the legacy router crosses at once and the topology
      router does not, or pushing the rest of the barrier's distance straight out makes it so. */
  lemma CornerPushIsVisible(c: CursorState, t: ScreenTopology, local: ScreenId, remote: ScreenId, dx: I32, dy: I32)
    requires Matches(c, t, local, remote) && CornerPush(c, dx, dy)
    ensures var (legacy, c') := c.Route(dx, dy);
            var r := Lift(c, t, local, remote);
            && r.Placed()
            && var (route, r') := r.Route(dx, dy, None);
            && r'.Placed() && route.Stay?
            && (!legacy.EnterRemote? && !legacy.EnterLocal? ==>
                  exists m: Shift ::
                    c'.Route(m.dx, m.dy).1.active != c'.active && r'.Route(m.dx, m.dy, None).0.Stay?)
  {
    CornerPushOutcome(c, t, local, remote, dx, dy);
    MigrationStepExact(c, t, local, remote, dx, dy);
    var (legacy, c') := c.Route(dx, dy);
    RouteStaysPlaced(Lift(c, t, local, remote), dx, dy, None);
    if !legacy.EnterRemote? && !legacy.EnterLocal? {
      StraightPushOutcome(c', t, local, remote);
      var m := StraightPush(c'.active, c'.direction, BARRIER_DISTANCE - c'.barrier.distance);
      assert c'.Route(m.dx, m.dy).1.active != c'.active;
    }
    hide LinkedEdge, ScaleAxis, RouterState.Route, CursorState.Route, OutwardDistance, Matches, RouterState.Linked;
  }

  /** A router standing on the local screen takes over the migrated topology in a state corresponding
      to that of a legacy router with the cursor at the same place. */
  lemma MigrationStart(t: ScreenTopology, local: ScreenId, remote: ScreenId, d: ScreenDirection, r: RouterState)
    requires ValidTopology(t) && TwoScreens(t, local, remote, d) && r.active == local
    ensures var c := Centered(SizeOf(t, local), SizeOf(t, remote), d).Positioned(r.x, r.y);
            Matches(c, t, local, remote) && r.Replaced(t) == Success(Lift(c, t, local, remote))
  {
    CheckTopologyExact(t);
    hide ValidTopology, LinkedEdge;
  }

  /** An input that tells them apart: in the top left corner, eight pixels up and one to the left. */
  lemma CornerPushExample()
    ensures var t := PairOf(Example("a", "a", TEN, true), Example("b", "b", TEN, false), Edge.Top);
            var c := Centered(TEN, TEN, ScreenDirection.Top).Positioned(0, 0);
            && Matches(c, t, "a", "b") && Lift(c, t, "a", "b").Placed()
            && c.Route(-1, -8).0 == EnterRemote(0, 8)
            && Lift(c, t, "a", "b").Route(-1, -8, None).0 == Stay("a", -1, -8)
  {
    hide LinkedEdge, RouterState.Pushed, RouterState.Linked, ValidTopology, Blank, RouterState.Reached, Landing;
    var a, b := Example("a", "a", TEN, true), Example("b", "b", TEN, false);
    var c := Centered(TEN, TEN, ScreenDirection.Top).Positioned(0, 0);
    NotBlank("a");
    NotBlank("b");
    PairIsLinked(a, b, Edge.Top);
    assert Matches(c, PairOf(a, b, Edge.Top), "a", "b");
    hide Matches;
    CornerPushIsVisible(c, PairOf(a, b, Edge.Top), "a", "b", -1, -8);
  }
}
