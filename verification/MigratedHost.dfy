/** What a migrated layout means for a router that stands on the host's screen. */
module MigratedHosts {
  import opened MachineInts
  import opened Wrappers
  import opened ScreenModel
  import opened Sequences
  import opened EdgeBarriers
  import opened TopologyRouting
  import opened CursorRouting
  import opened LayoutModel
  import opened LayoutProperties
  import opened RouterGeometry
  import opened InventoryMerging
  import opened Migration

  // ---------- Runs of the two routers side by side ----------

  predicate RoutedAlike(c: CursorState, r: RouterState, local: ScreenId, remote: ScreenId, ms: seq<Shift>)
    requires r.Placed()
  {
    forall k | 0 <= k < |ms| ::
      UntimedAt(r, ms, k).Route(ms[k].dx, ms[k].dy, None).0
      == LiftRoute(LegacyAt(c, ms, k).Route(ms[k].dx, ms[k].dy).0, local, remote)
  }

  predicate NoCorners(c: CursorState, ms: seq<Shift>) {
    forall k | 0 <= k < |ms| :: !CornerPush(LegacyAt(c, ms, k), ms[k].dx, ms[k].dy)
  }

  lemma {:induction false} MatchesThroughout(c: CursorState, t: ScreenTopology, local: ScreenId, remote: ScreenId,
                                             ms: seq<Shift>, n: nat)
    requires Matches(c, t, local, remote) && n <= |ms|
    ensures Matches(LegacyAt(c, ms, n), t, local, remote)
  {
    hide Matches, CornerPush, RouterState.Route, CursorState.Route, Lift, LiftRoute;
    if n > 0 {
      MatchesThroughout(c, t, local, remote, ms, n - 1);
      MigrationStepExact(LegacyAt(c, ms, n - 1), t, local, remote, ms[n - 1].dx, ms[n - 1].dy);
    }
  }

  // The routers give the same routes from corresponding states, all the way.
  predicate InStep(c: CursorState, t: ScreenTopology, local: ScreenId, remote: ScreenId, ms: seq<Shift>)
    requires PositionOf(c.direction).Some? && Lift(c, t, local, remote).Placed()
  {
    var r := Lift(c, t, local, remote);
    && RoutedAlike(c, r, local, remote, ms)
    && forall k | 0 <= k <= |ms| :: Corresponds(UntimedAt(r, ms, k), LegacyAt(c, ms, k), t, local, remote)
  }

  predicate Corresponds(r: RouterState, c: CursorState, t: ScreenTopology, local: ScreenId, remote: ScreenId) {
    PositionOf(c.direction).Some? && r == Lift(c, t, local, remote)
  }

  lemma {:induction false} CornerlessRunsInStep(c: CursorState, t: ScreenTopology, local: ScreenId, remote: ScreenId,
                                                ms: seq<Shift>)
    requires Matches(c, t, local, remote) && NoCorners(c, ms)
    ensures PositionOf(c.direction).Some? && Lift(c, t, local, remote).Placed()
    ensures InStep(c, t, local, remote, ms)
  {
    hide Matches, CornerPush, RouterState.Route, CursorState.Route, Lift, LiftRoute, RoutedAlike, RouterState.Placed;
    MatchesIsPlaced(c, t, local, remote);
    CornerlessRoutedAlike(c, t, local, remote, ms);
    forall k | 0 <= k <= |ms|
      ensures Corresponds(UntimedAt(Lift(c, t, local, remote), ms, k), LegacyAt(c, ms, k), t, local, remote)
    {
      StatesAgree(c, t, local, remote, ms, k);
      LegacyKeepsDirection(c, ms, k);
    }
  }

  lemma {:induction false} CornerlessRoutedAlike(c: CursorState, t: ScreenTopology, local: ScreenId, remote: ScreenId,
                                                 ms: seq<Shift>)
    requires Matches(c, t, local, remote) && NoCorners(c, ms)
    ensures PositionOf(c.direction).Some? && Lift(c, t, local, remote).Placed()
    ensures RoutedAlike(c, Lift(c, t, local, remote), local, remote, ms)
  {
    hide Matches, CornerPush, Lift;
    MatchesIsPlaced(c, t, local, remote);
    MigrationPreservesRouting(c, t, local, remote, ms);
  }

  lemma {:induction false} InStepHasNoCorner(c: CursorState, t: ScreenTopology, local: ScreenId, remote: ScreenId,
                                             ms: seq<Shift>, k: nat)
    requires Matches(c, t, local, remote) && Lift(c, t, local, remote).Placed() && k < |ms|
    requires InStep(c, t, local, remote, ms)
    ensures !CornerPush(LegacyAt(c, ms, k), ms[k].dx, ms[k].dy)
  {
    hide Matches, CornerPush, RouterState.Route, CursorState.Route, Lift, LiftRoute, RouterState.Placed;
    MatchesIsPlaced(c, t, local, remote);
    var r := Lift(c, t, local, remote);
    MatchesThroughout(c, t, local, remote, ms, k);
    MigrationStepExact(LegacyAt(c, ms, k), t, local, remote, ms[k].dx, ms[k].dy);
    assert Corresponds(UntimedAt(r, ms, k), LegacyAt(c, ms, k), t, local, remote);
    assert Corresponds(UntimedAt(r, ms, k + 1), LegacyAt(c, ms, k + 1), t, local, remote);
  }

  /** Over a whole run the routers stay in step if and only if no motion of the run is a corner push. */
  lemma {:induction false} MigrationRunExact(c: CursorState, t: ScreenTopology, local: ScreenId, remote: ScreenId,
                                             ms: seq<Shift>)
    requires Matches(c, t, local, remote)
    ensures PositionOf(c.direction).Some? && Lift(c, t, local, remote).Placed()
    ensures InStep(c, t, local, remote, ms) <==> NoCorners(c, ms)
  {
    MatchesIsPlaced(c, t, local, remote);
    hide Matches, CornerPush, InStep, Lift, RouterState.Placed;
    if NoCorners(c, ms) {
      CornerlessRunsInStep(c, t, local, remote, ms);
    }
    if InStep(c, t, local, remote, ms) {
      forall k | 0 <= k < |ms| ensures !CornerPush(LegacyAt(c, ms, k), ms[k].dx, ms[k].dy) {
        InStepHasNoCorner(c, t, local, remote, ms, k);
      }
    }
  }

  // To the left or right every run is without corner pushes.
  lemma SidewaysHasNoCorners(c: CursorState, ms: seq<Shift>)
    requires c.direction.Left? || c.direction.Right?
    ensures NoCorners(c, ms)
  {
    hide CornerPush;
    forall k | 0 <= k < |ms| ensures !CornerPush(LegacyAt(c, ms, k), ms[k].dx, ms[k].dy) {
      SidewaysNeverCorners(c, ms, k);
    }
  }

  // ---------- A screen without links is never left ----------

  predicate Unlinked(t: ScreenTopology, id: ScreenId) {
    forall e :: LinkedEdge(t, id, e).None?
  }

  lemma UnlinkedStays(r: RouterState, dx: I32, dy: I32, now: Option<U64>)
    requires r.Placed() && Unlinked(r.topology, r.active)
    ensures var (route, next) := r.Route(dx, dy, now);
            route == Stay(r.active, dx, dy) && next.topology == r.topology && next.active == r.active
  {
    hide LinkedEdge, RouterState.Pushed, RouterState.Reached;
  }

  lemma {:induction false} UnlinkedStaysThroughout(r: RouterState, ms: seq<Shift>, n: nat)
    requires r.Placed() && Unlinked(r.topology, r.active) && n <= |ms|
    ensures UntimedAt(r, ms, n).topology == r.topology && UntimedAt(r, ms, n).active == r.active
  {
    hide Unlinked, RouterState.Route;
    if n > 0 {
      UnlinkedStaysThroughout(r, ms, n - 1);
      UnlinkedStays(UntimedAt(r, ms, n - 1), ms[n - 1].dx, ms[n - 1].dy, None);
    }
  }

  // ---------- The legacy router can always leave ----------

  // Twice as far as one can go, straight out in the direction of the remote screen.
  function Escape(d: ScreenDirection): seq<Shift>
    requires PositionOf(d).Some?
  {
    [StraightPush(LocalScreen, d, I32_MAX), StraightPush(LocalScreen, d, I32_MAX)]
  }

  lemma EscapeHasNoCorners(c: CursorState)
    requires PositionOf(c.direction).Some?
    ensures NoCorners(c, Escape(c.direction))
  {
    var ms := Escape(c.direction);
    forall k | 0 <= k < |ms| ensures !CornerPush(LegacyAt(c, ms, k), ms[k].dx, ms[k].dy) {
      LegacyKeepsDirection(c, ms, k);
    }
    hide LegacyAt, CursorState.OutwardBy;
  }

  // The first push crosses or arrives at the edge.
  lemma FirstPush(c: CursorState)
    requires PositionOf(c.direction).Some? && c.active.LocalScreen? && c.barrier == Idle()
    requires 0 <= c.x < c.local.width && 0 <= c.y < c.local.height
    ensures var m := StraightPush(LocalScreen, c.direction, I32_MAX);
            var (route, c') := c.Route(m.dx, m.dy);
            route.EnterRemote? || (c'.active.LocalScreen? && OnExitEdge(c') && c'.barrier.distance >= 0)
  {
    hide ScaleAxis;
  }

  // The second one crosses if the first did not.
  lemma SecondPush(c: CursorState)
    requires PositionOf(c.direction).Some? && c.active.LocalScreen? && OnExitEdge(c) && c.barrier.distance >= 0
    ensures var m := StraightPush(LocalScreen, c.direction, I32_MAX);
            c.Route(m.dx, m.dy).0.EnterRemote?
  {
    StraightPushIsOutward(c, I32_MAX);
    hide ScaleAxis, OutwardDistance, CursorState.OutwardBy, OnExitEdge, CornerPush;
  }

  lemma LegacyEscapes(c: CursorState)
    requires PositionOf(c.direction).Some? && c.active.LocalScreen? && c.barrier == Idle()
    requires 0 <= c.x < c.local.width && 0 <= c.y < c.local.height
    ensures var ms := Escape(c.direction);
            exists k | 0 <= k < |ms| :: LegacyAt(c, ms, k).Route(ms[k].dx, ms[k].dy).0.EnterRemote?
  {
    var ms := Escape(c.direction);
    FirstPush(c);
    hide CursorState.Route, OnExitEdge;
    assert LegacyAt(c, ms, 0) == c;
    if c.Route(ms[0].dx, ms[0].dy).0.EnterRemote? {
      assert LegacyAt(c, ms, 0).Route(ms[0].dx, ms[0].dy).0.EnterRemote?;
    } else {
      assert LegacyAt(c, ms, 1) == c.Route(ms[0].dx, ms[0].dy).1;
      RouteKeepsDirection(c, ms[0].dx, ms[0].dy);
      SecondPush(LegacyAt(c, ms, 1));
      assert LegacyAt(c, ms, 1).Route(ms[1].dx, ms[1].dy).0.EnterRemote?;
    }
  }

  // ---------- Where the host stands ----------

  // The first online screen of this device in a topology; resolving keeps the order of the inventory.
  function HostNode(screens: seq<ScreenNode>): Option<ScreenId> {
    if screens == [] then None
    else if screens[0].thisDevice && screens[0].online then Some(screens[0].screenId)
    else HostNode(screens[1..])
  }

  lemma {:induction false} HostNodeIsHostScreen(inv: ScreenInventory, overrides: seq<SizeOverride>)
    ensures HostNode(NodesFor(inv, overrides)) == if HostScreen(inv).Some? then Some(HostScreen(inv).value.screenId)
            else None
  {
    if inv != [] {
      assert NodesFor(inv, overrides)[1..] == NodesFor(inv[1..], overrides);
      HostNodeIsHostScreen(inv[1..], overrides);
    }
  }

  // The legacy router of the same configuration, with the cursor at the same place.
  function LegacyFor(t: ScreenTopology, inv: ScreenInventory, d: ScreenDirection, x: I32, y: I32): CursorState
    requires LocalAnchor(inv).Some? && |OnlineRemotes(inv)| == 1
    requires Knows(t, LocalAnchor(inv).value.screenId) && Knows(t, OnlineRemotes(inv)[0].screenId)
  {
    Centered(SizeOf(t, LocalAnchor(inv).value.screenId), SizeOf(t, OnlineRemotes(inv)[0].screenId), d).Positioned(x, y)
  }

  // On every untimed run without corner pushes the router goes the way of the legacy one.
  ghost predicate PreservesRouting(c: CursorState, r: RouterState, host: ScreenId, remote: ScreenId)
    requires r.Placed()
  {
    forall ms | NoCorners(c, ms) :: RoutedAlike(c, r, host, remote, ms)
  }

  lemma StuckIsNotAlike(c: CursorState, r: RouterState, remote: ScreenId)
    requires r.Placed() && Unlinked(r.topology, r.active)
    requires PositionOf(c.direction).Some? && c.active.LocalScreen? && c.barrier == Idle()
    requires 0 <= c.x < c.local.width && 0 <= c.y < c.local.height
    ensures !PreservesRouting(c, r, r.active, remote)
  {
    hide Unlinked, RouterState.Route, RouterState.Placed, CursorState.Route, NoCorners, Escape, LegacyAt, UntimedAt;
    var ms := Escape(c.direction);
    EscapeHasNoCorners(c);
    LegacyEscapes(c);
    var k :| 0 <= k < |ms| && LegacyAt(c, ms, k).Route(ms[k].dx, ms[k].dy).0.EnterRemote?;
    UnlinkedStaysThroughout(r, ms, k);
    UnlinkedStays(UntimedAt(r, ms, k), ms[k].dx, ms[k].dy, None);
    assert !RoutedAlike(c, r, r.active, remote, ms);
  }

  lemma HostIsListed(inv: ScreenInventory)
    requires HostScreen(inv).Some?
    ensures HostScreen(inv).value in inv && HostScreen(inv).value.thisDevice && HostScreen(inv).value.online
  {
    FirstWhereFound((s: ScreenDescriptor) => s.thisDevice && s.online, inv);
  }

  // The three screens of a migration, in the topology it leads to.
  lemma MigratedScreens(l: ScreenLayout, inv: ScreenInventory, d: ScreenDirection)
    requires l.links == [] && MigrateLegacyDirection(l, inv, d).Success? && HostScreen(inv).Some?
    ensures var resolved := Resolve(MigrateLegacyDirection(l, inv, d).value, inv);
            var host, anchor, remote := HostScreen(inv).value, LocalAnchor(inv).value, OnlineRemotes(inv)[0];
            && PositionOf(d).Some? && host.online
            && resolved.Success? && ValidTopology(resolved.value) && Knows(resolved.value, host.screenId)
            && Knows(resolved.value, anchor.screenId) && Knows(resolved.value, remote.screenId)
            && (host != anchor ==> Unlinked(resolved.value, host.screenId))
  {
    assert LocalAnchor(inv).Some? && |OnlineRemotes(inv)| == 1 && PositionOf(d).Some?;
    hide MigrateLegacyDirection, Resolve, LocalAnchor, OnlineRemotes, HostScreen, ValidTopology, ValidInventory,
      LinkedEdge, Knows;
    MigrationParties(inv);
    HostIsListed(inv);
    forall e { OnlyTheAnchorIsLinked(l, inv, d, HostScreen(inv).value, e); }
    OnlyTheAnchorIsLinked(l, inv, d, HostScreen(inv).value, Edge.Left);
    OnlyTheAnchorIsLinked(l, inv, d, LocalAnchor(inv).value, Edge.Left);
    OnlyTheAnchorIsLinked(l, inv, d, OnlineRemotes(inv)[0], Edge.Left);
  }

  lemma TakesOver(r0: RouterState, t: ScreenTopology)
    requires ValidTopology(t) && Knows(t, r0.active)
    ensures r0.Replaced(t).Success? && r0.Replaced(t).value.Placed()
    ensures r0.Replaced(t).value.topology == t && r0.Replaced(t).value.active == r0.active
  {
    CheckTopologyExact(t);
    hide ValidTopology, CheckTopology;
  }

  /** A router that stands on the host's screen and takes over the migrated topology goes, when its
      motions are untimed, the way of the legacy router on every run without corner pushes, if and only
      if that screen is the anchor of the migration. Otherwise nothing leads off that screen. */
  lemma TakeOverExact(l: ScreenLayout, inv: ScreenInventory, d: ScreenDirection, r0: RouterState)
    requires l.links == [] && MigrateLegacyDirection(l, inv, d).Success?
    requires HostScreen(inv).Some? && r0.active == HostScreen(inv).value.screenId
    ensures var resolved := Resolve(MigrateLegacyDirection(l, inv, d).value, inv);
            var host, anchor, remote := HostScreen(inv).value, LocalAnchor(inv).value, OnlineRemotes(inv)[0];
            && resolved.Success? && Knows(resolved.value, anchor.screenId) && Knows(resolved.value, remote.screenId)
            && r0.Replaced(resolved.value).Success? && r0.Replaced(resolved.value).value.Placed()
            && var c, r := LegacyFor(resolved.value, inv, d, r0.x, r0.y), r0.Replaced(resolved.value).value;
            && (PreservesRouting(c, r, host.screenId, remote.screenId) <==> host == anchor)
            && (host != anchor ==> Unlinked(resolved.value, host.screenId))
  {
    assert LocalAnchor(inv).Some? && |OnlineRemotes(inv)| == 1;
    hide MigrateLegacyDirection, Resolve, LocalAnchor, OnlineRemotes, HostScreen, ValidTopology, PreservesRouting,
      Matches, Unlinked, CornerPush, RouterState.Replaced, RouterState.Placed, Knows, Lift;
    MigratedScreens(l, inv, d);
    var host, anchor, remote := HostScreen(inv).value, LocalAnchor(inv).value, OnlineRemotes(inv)[0];
    var t := Resolve(MigrateLegacyDirection(l, inv, d).value, inv).value;
    TakesOver(r0, t);
    var c := LegacyFor(t, inv, d, r0.x, r0.y);
    if host == anchor {
      MigratedTopology(l, inv, d);
      MigrationStart(t, host.screenId, remote.screenId, d, r0);
      AnchoredPreserves(c, t, host.screenId, remote.screenId);
    } else {
      StuckIsNotAlike(c, r0.Replaced(t).value, remote.screenId);
    }
  }

  lemma {:induction false} AnchoredPreserves(c: CursorState, t: ScreenTopology, local: ScreenId, remote: ScreenId)
    requires Matches(c, t, local, remote)
    ensures PositionOf(c.direction).Some? && Lift(c, t, local, remote).Placed()
    ensures PreservesRouting(c, Lift(c, t, local, remote), local, remote)
  {
    MatchesIsPlaced(c, t, local, remote);
    hide Matches, Lift, NoCorners, RoutedAlike;
    forall ms | NoCorners(c, ms) ensures RoutedAlike(c, Lift(c, t, local, remote), local, remote, ms) {
      CornerlessRoutedAlike(c, t, local, remote, ms);
    }
  }

  // Over an empty layout nothing is linked, wherever the cursor has been moved.
  lemma EmptyLayoutIsUnlinked(t: ScreenTopology, id: ScreenId)
    requires t.links == []
    ensures Unlinked(t, id)
  {
  }

  // The host and the anchor are the same screen if they have the same ID.
  lemma AnchorById(l: ScreenLayout, inv: ScreenInventory, d: ScreenDirection)
    requires MigrateLegacyDirection(l, inv, d).Success? && l.links == [] && HostScreen(inv).Some?
    ensures HostScreen(inv).value.screenId == LocalAnchor(inv).value.screenId
            ==> HostScreen(inv).value == LocalAnchor(inv).value
  {
    var host, anchor := HostScreen(inv).value, LocalAnchor(inv).value;
    MigrationParties(inv);
    FirstWhereFound((s: ScreenDescriptor) => s.thisDevice && s.online, inv);
    OnlyTheAnchorIsLinked(l, inv, d, host, Edge.Left);
    hide HostScreen, LocalAnchor, OnlineRemotes, MigrateLegacyDirection, ValidInventory, Resolve;
    if host.screenId == anchor.screenId { SameIdSameScreen(inv, host, anchor); }
  }

  // ---------- Two monitors ----------

  function Descriptor(id: ScreenId, device: DeviceId, primary: bool, local: bool): ScreenDescriptor {
    ScreenDescriptor(id, device, device, id, TEN, primary, true, local)
  }

  const TWO_MONITORS: ScreenInventory := [Descriptor("h/1", "h", false, true), Descriptor("h/2", "h", true, true),
      Descriptor("r/1", "r", true, false)]

  /** An input that loses the way out: two online monitors, the second one primary. The migration links
      the second, the host stands on the first. */
  lemma TwoMonitorsExample()
    ensures var inv := TWO_MONITORS;
            && MigrateLegacyDirection(DEFAULT_LAYOUT, inv, ScreenDirection.Right).Success?
            && HostScreen(inv) == Some(inv[0]) && LocalAnchor(inv) == Some(inv[1]) && inv[1].online
            && var resolved := Resolve(MigrateLegacyDirection(DEFAULT_LAYOUT, inv, ScreenDirection.Right).value, inv);
               resolved.Success? && Unlinked(resolved.value, "h/1")
  {
    var inv := TWO_MONITORS;
    TwoMonitorsMigrate();
    assert inv[0] in inv && HostScreen(inv) == Some(inv[0]);
    hide MigrateLegacyDirection, LinkedEdge, Resolve, ValidInventory;
    forall e { OnlyTheAnchorIsLinked(DEFAULT_LAYOUT, inv, ScreenDirection.Right, inv[0], e); }
    OnlyTheAnchorIsLinked(DEFAULT_LAYOUT, inv, ScreenDirection.Right, inv[0], Edge.Left);
  }

  lemma TwoMonitorsParties()
    ensures LocalAnchor(TWO_MONITORS) == Some(TWO_MONITORS[1]) && OnlineRemotes(TWO_MONITORS) == [TWO_MONITORS[2]]
  {
    var inv := TWO_MONITORS;
    assert inv[1..] == [inv[1], inv[2]] && inv[1..][1..] == [inv[2]] && inv[1..][1..][1..] == [];
  }

  lemma TwoMonitorsAreValid()
    ensures ValidLayout(DEFAULT_LAYOUT, TWO_MONITORS) && "h/2" in KnownIds(TWO_MONITORS)
            && "r/1" in KnownIds(TWO_MONITORS)
  {
    var ids := InventoryIds(TWO_MONITORS);
    assert ids == ["h/1", "h/2", "r/1"];
    NotBlank("h/1");
    NotBlank("h/2");
    NotBlank("r/1");
    assert ids[1] == "h/2" && ids[2] == "r/1";
    hide Blank;
  }

  lemma TwoMonitorsMigrate()
    ensures LocalAnchor(TWO_MONITORS) == Some(TWO_MONITORS[1])
    ensures MigrateLegacyDirection(DEFAULT_LAYOUT, TWO_MONITORS, ScreenDirection.Right).Success?
  {
    TwoMonitorsParties();
    TwoMonitorsAreValid();
    ApplyExact(DEFAULT_LAYOUT, TWO_MONITORS, Place("r/1", "h/2", RightOf, false));
    hide LocalAnchor, OnlineRemotes, ValidLayout, KnownIds, Apply;
  }

  // ---------- One monitor ----------

  const ONE_MONITOR: ScreenInventory := [Descriptor("h/1", "h", true, true)]
  const PEER: Reporter := Reporter(false, "r", "r")
  const PEER_SCREEN: ReportedScreen := ReportedScreen("1", "1", TEN, true)

  lemma OneMonitorIsOrderly()
    ensures Orderly(ONE_MONITOR) && SlashFree(PEER.deviceId) && Elsewhere(ONE_MONITOR, PEER.deviceId)
    ensures ValidLayout(DEFAULT_LAYOUT, ONE_MONITOR)
  {
    assert "h/1"[..1] == "h";
    OrderlyIsValid(ONE_MONITOR);
    hide ValidInventory;
  }

  lemma OneMonitorMerges()
    ensures Merged(ONE_MONITOR, PEER, [PEER_SCREEN]) == [ONE_MONITOR[0], PEER.Fresh(PEER_SCREEN)]
  {
    assert Dimmed(ONE_MONITOR, PEER) == ONE_MONITOR;
    assert PEER.IdOf(PEER_SCREEN) == "r/1" && "r/1"[0] != "h/1"[0];
    assert [PEER_SCREEN][..0] == [] && ONE_MONITOR[1..] == [];
    assert FirstMatch(ONE_MONITOR, PEER, PEER_SCREEN) == 1;
    assert Upserts(ONE_MONITOR, PEER, [PEER_SCREEN]) == Upsert(ONE_MONITOR, PEER, PEER_SCREEN);
  }

  lemma OneMonitorParties()
    ensures var inv := [ONE_MONITOR[0], PEER.Fresh(PEER_SCREEN)];
            LocalAnchor(inv) == Some(inv[0]) && OnlineRemotes(inv) == [inv[1]]
  {
    var inv := [ONE_MONITOR[0], PEER.Fresh(PEER_SCREEN)];
    assert inv[1..] == [inv[1]] && inv[1..][1..] == [];
    assert [inv[1]][1..] == [];
    assert Retain((s: ScreenDescriptor) => !s.thisDevice && s.online, inv[1..]) == [inv[1]];
  }

  lemma OneMonitorMigrates()
    ensures var inv := Merged(ONE_MONITOR, PEER, [PEER_SCREEN]);
            && MigrateLegacyDirection(DEFAULT_LAYOUT, inv, ScreenDirection.Right).Success?
            && LocalAnchor(inv) == HostScreen(ONE_MONITOR) == Some(ONE_MONITOR[0])
  {
    var inv := [ONE_MONITOR[0], PEER.Fresh(PEER_SCREEN)];
    OneMonitorMerges();
    OneMonitorIsOrderly();
    MergeExact(ONE_MONITOR, PEER, [PEER_SCREEN]);
    OrderlyIsValid(inv);
    GrownInventoryKeepsLayout(DEFAULT_LAYOUT, ONE_MONITOR, inv);
    hide Orderly, ValidLayout, ValidInventory, Merged, Apply;
    OneMonitorParties();
    hide LocalAnchor, OnlineRemotes;
    assert PEER.IdOf(PEER_SCREEN) == "r/1" && "r/1"[0] != "h/1"[0];
    assert InventoryIds(inv)[0] == "h/1" && InventoryIds(inv)[1] == "r/1";
    ApplyExact(DEFAULT_LAYOUT, inv, Place("r/1", "h/1", RightOf, false));
  }
}
