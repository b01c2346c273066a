/** The host's main loop: screens are reported, come and go, layouts change, and every topology the
    session and its peers ever see is resolved from the layout and the inventory of the moment. */
module HostLoops {
  import opened MachineInts
  import opened Wrappers
  import opened ScreenModel
  import opened InputModel
  import opened TopologyRouting
  import opened RouterGeometry
  import CursorRouting
  import opened LayoutModel
  import opened LayoutProperties
  import Inv = InventoryMerging
  import Legacy = Migration
  import Start = MigratedHosts
  import opened DesktopSessions
  import opened InputOwnership
  import opened OwnershipRuns
  import opened HostClient
  import opened Composition

  datatype HostLoop = HostLoop(
    self: DeviceId,
    sys: System,
    layout: ScreenLayout,
    inventory: ScreenInventory,
    direction: Option<CursorRouting.ScreenDirection>)

  // The branches of the loop; those that involve no topology are steps of the system alone.
  datatype LoopEvent =
    | Joined(peer: Inv.Reporter, screens: seq<Inv.ReportedScreen>)
    | Left(device: DeviceId)
    | PeerReported(peer: Inv.Reporter, screens: seq<Inv.ReportedScreen>)
    | HostReported(name: string, screens: seq<Inv.ReportedScreen>)
    | Relaid(layout: ScreenLayout)
    | Within(event: SystemEvent)

  datatype LoopFault =
    | DirectionRefused
    | MigrationFailed(migration: Legacy.MigrationFault)
    | Unresolvable(error: LayoutError)
    | SystemFailed(fault: SystemFault)

  // ---------- One turn of the loop ----------

  function InventoryAfter(loop: HostLoop, ev: LoopEvent): ScreenInventory {
    match ev
    case Joined(peer, screens) => Inv.Merged(loop.inventory, peer, screens)
    case Left(device) => Inv.Offline(loop.inventory, device)
    case PeerReported(peer, screens) => Inv.Merged(loop.inventory, peer, screens)
    case HostReported(name, screens) => Inv.Merged(loop.inventory, Inv.Reporter(true, loop.self, name), screens)
    case _ => loop.inventory
  }

  // A configured direction is migrated when the first peer joins, and refused once there are links.
  function LayoutAfter(loop: HostLoop, ev: LoopEvent): Result<ScreenLayout, LoopFault> {
    if ev.Relaid? then Success(ev.layout)
    else if !ev.Joined? || loop.direction.None? then Success(loop.layout)
    else if loop.layout.links != [] then Failure(DirectionRefused)
    else
      var migrated := Legacy.MigrateLegacyDirection(loop.layout, InventoryAfter(loop, ev), loop.direction.value);
      if migrated.Failure? then Failure(MigrationFailed(migrated.error)) else Success(migrated.value)
  }

  // What the system is told; forgetting a device that is not connected is a mere update.
  function Told(loop: HostLoop, ev: LoopEvent, t: ScreenTopology): SystemEvent {
    match ev
    case Joined(peer, _) => Connect(peer.deviceId, t)
    case Left(device) => if device in loop.sys.peers then Disconnect(device, t) else Update(t)
    case _ => Update(t)
  }

  predicate LoopEnabled(loop: HostLoop, ev: LoopEvent) {
    && WellTyped(loop.sys)
    && match ev
       case Joined(peer, _) => !peer.local && peer.deviceId !in loop.sys.peers
       case PeerReported(peer, _) => !peer.local && peer.deviceId in loop.sys.peers
       case Within(event) => TopologyOf(event).None? && Enabled(loop.sys, event)
       case _ => true
  }

  ghost function Turn(loop: HostLoop, ev: LoopEvent): Result<HostLoop, LoopFault>
    requires LoopEnabled(loop, ev)
  {
    if ev.Within? then
      var r := Next(loop.sys, ev.event);
      if r.Failure? then Failure(SystemFailed(r.error)) else Success(loop.(sys := r.value))
    else
      var layout, inv := LayoutAfter(loop, ev), InventoryAfter(loop, ev);
      if layout.Failure? then Failure(layout.error)
      else
        var t := Resolve(layout.value, inv);
        if t.Failure? then Failure(Unresolvable(t.error))
        else
          var r := Next(loop.sys, Told(loop, ev, t.value));
          if r.Failure? then Failure(SystemFailed(r.error))
          else Success(loop.(sys := r.value, layout := layout.value, inventory := inv,
                             direction := if ev.Joined? then None else loop.direction))
  }

  // ---------- Who is online ----------

  // This device's screens are known as such, and any other screen is online only while its device is
  // connected.
  predicate Attributed(inv: ScreenInventory, self: DeviceId, devices: set<DeviceId>) {
    forall i | 0 <= i < |inv| ::
      && (inv[i].thisDevice <==> inv[i].deviceId == self)
      && (inv[i].online && !inv[i].thisDevice ==> inv[i].deviceId in devices)
  }

  // A report about this device itself, or by a connected one about its own screens.
  predicate Credible(r: Inv.Reporter, self: DeviceId, devices: set<DeviceId>) {
    && Inv.SlashFree(r.deviceId)
    && (r.local <==> r.deviceId == self)
    && (!r.local ==> r.deviceId in devices)
  }

  lemma UpsertAttributed(inv: ScreenInventory, r: Inv.Reporter, s: Inv.ReportedScreen, self: DeviceId,
                         devices: set<DeviceId>)
    requires Inv.Orderly(inv) && Attributed(inv, self, devices) && Credible(r, self, devices)
    ensures Attributed(Inv.Upsert(inv, r, s), self, devices)
  {
    var i := Inv.FirstMatch(inv, r, s);
    if i < |inv| {
      Inv.MatchIsById(inv, r, s, i);
    }
    hide Inv.Orderly, Inv.SlashFree;
  }

  lemma {:induction false} UpsertsAttributed(inv: ScreenInventory, r: Inv.Reporter, screens: seq<Inv.ReportedScreen>,
                                             self: DeviceId, devices: set<DeviceId>)
    requires Inv.Orderly(inv) && Inv.OnlineExactly(inv, r.deviceId, {}) && Attributed(inv, self, devices)
             && Credible(r, self, devices)
    ensures Attributed(Inv.Upserts(inv, r, screens), self, devices)
  {
    hide Inv.Orderly, Inv.OnlineExactly, Inv.SlashFree, Inv.Upsert, Attributed;
    if screens != [] {
      var before := screens[..|screens| - 1];
      UpsertsAttributed(inv, r, before, self, devices);
      Inv.UpsertsExact(inv, r, before);
      UpsertAttributed(Inv.Upserts(inv, r, before), r, screens[|screens| - 1], self, devices);
    }
  }

  lemma MergeAttributed(inv: ScreenInventory, r: Inv.Reporter, screens: seq<Inv.ReportedScreen>, self: DeviceId,
                        devices: set<DeviceId>)
    requires Inv.Orderly(inv) && Attributed(inv, self, devices) && Credible(r, self, devices)
    ensures Attributed(Inv.Merged(inv, r, screens), self, devices)
  {
    Inv.DimmedOrderly(inv, Inv.Dimmed(inv, r));
    UpsertsAttributed(Inv.Dimmed(inv, r), r, screens, self, devices);
    hide Inv.Orderly, Inv.SlashFree, Inv.Upserts;
  }

  // Reconciling at start leaves nothing online but what was detected here.
  lemma ReconcileAttributed(inv: ScreenInventory, self: DeviceId, name: string, screens: seq<Inv.ReportedScreen>)
    requires Inv.Orderly(inv) && Inv.SlashFree(self)
    ensures Attributed(Inv.After(inv, Inv.Reconcile(Inv.Reporter(true, self, name), screens)), self, {})
  {
    var r := Inv.Reporter(true, self, name);
    var dark := Inv.Dimmed(Inv.AllDimmed(inv), r);
    Inv.DimmedOrderly(inv, dark);
    UpsertsAttributed(dark, r, screens, self, {});
    hide Inv.Orderly, Inv.SlashFree, Inv.Upserts;
  }

  // ---------- The invariant ----------

  ghost predicate LoopSound(loop: HostLoop) {
    && Sound(loop.sys)
    && Inv.SlashFree(loop.self) && loop.self !in loop.sys.peers
    && Inv.Orderly(loop.inventory) && Attributed(loop.inventory, loop.self, loop.sys.peers.Keys)
    && ValidLayout(loop.layout, loop.inventory)
    && Resolve(loop.layout, loop.inventory) == Success(loop.sys.topology)
  }

  // What is assumed of the surroundings: device IDs hold no slash, nobody else uses this device's, a
  // new layout is valid over the inventory and captured input is canonical.
  predicate LoopAdmissible(loop: HostLoop, ev: LoopEvent) {
    match ev
    case Joined(peer, _) => Inv.SlashFree(peer.deviceId) && peer.deviceId != loop.self
    case PeerReported(peer, _) => Inv.SlashFree(peer.deviceId)
    case Relaid(layout) => ValidLayout(layout, loop.inventory)
    case Within(event) => Admissible(event)
    case _ => true
  }

  // The devices connected after an event.
  function DevicesAfter(loop: HostLoop, ev: LoopEvent): set<DeviceId> {
    match ev
    case Joined(peer, _) => loop.sys.peers.Keys + {peer.deviceId}
    case Left(device) => loop.sys.peers.Keys - {device}
    case _ => loop.sys.peers.Keys
  }

  lemma MoreDevicesAttributed(inv: ScreenInventory, self: DeviceId, devices: set<DeviceId>, d: DeviceId)
    requires Attributed(inv, self, devices)
    ensures Attributed(inv, self, devices + {d})
  {
  }

  lemma InventoryStep(loop: HostLoop, ev: LoopEvent)
    requires LoopSound(loop) && LoopEnabled(loop, ev) && LoopAdmissible(loop, ev)
    ensures var inv := InventoryAfter(loop, ev);
            && Inv.Orderly(inv) && KnownIds(loop.inventory) <= KnownIds(inv)
            && Attributed(inv, loop.self, DevicesAfter(loop, ev))
  {
    hide Sound, Inv.Orderly, Inv.SlashFree, Attributed, ValidLayout, Resolve, Inv.Merged, Inv.Offline, KnownIds;
    var inv, devices := loop.inventory, loop.sys.peers.Keys;
    match ev
    case Joined(peer, screens) =>
      MoreDevicesAttributed(inv, loop.self, devices, peer.deviceId);
      MergeAttributed(inv, peer, screens, loop.self, devices + {peer.deviceId});
      Inv.MergeExact(inv, peer, screens);
    case Left(device) =>
      Inv.EventKeepsOrder(inv, Inv.MarkOffline(device));
      OfflineAttributed(inv, loop.self, devices, device);
    case PeerReported(peer, screens) =>
      MergeAttributed(inv, peer, screens, loop.self, devices);
      Inv.MergeExact(inv, peer, screens);
    case HostReported(name, screens) =>
      MergeAttributed(inv, Inv.Reporter(true, loop.self, name), screens, loop.self, devices);
      Inv.MergeExact(inv, Inv.Reporter(true, loop.self, name), screens);
    case _ =>
  }

  lemma OfflineAttributed(inv: ScreenInventory, self: DeviceId, devices: set<DeviceId>, d: DeviceId)
    requires Attributed(inv, self, devices)
    ensures Attributed(Inv.Offline(inv, d), self, devices - {d})
  {
  }

  // A layout the loop goes on with is valid over the inventory it goes on with.
  lemma LayoutStep(loop: HostLoop, ev: LoopEvent)
    requires LoopSound(loop) && LoopEnabled(loop, ev) && LoopAdmissible(loop, ev) && LayoutAfter(loop, ev).Success?
    ensures ValidLayout(LayoutAfter(loop, ev).value, InventoryAfter(loop, ev))
  {
    var layout, inv := LayoutAfter(loop, ev).value, InventoryAfter(loop, ev);
    InventoryStep(loop, ev);
    Inv.OrderlyIsValid(inv);
    Inv.GrownInventoryKeepsLayout(loop.layout, loop.inventory, inv);
    hide Sound, Inv.Orderly, Inv.SlashFree, Attributed, ValidLayout, ValidInventory, Resolve, Inv.Merged, Inv.Offline,
      KnownIds, Legacy.MigrateLegacyDirection;
    if ev.Joined? && loop.direction.Some? {
      MigratedIsValid(loop.layout, inv, loop.direction.value);
    }
  }

  lemma MigratedIsValid(l: ScreenLayout, inv: ScreenInventory, d: CursorRouting.ScreenDirection)
    requires Legacy.MigrateLegacyDirection(l, inv, d).Success?
    ensures ValidLayout(Legacy.MigrateLegacyDirection(l, inv, d).value, inv)
  {
    ApplyExact(l, inv, Place(Legacy.OnlineRemotes(inv)[0].screenId, Legacy.LocalAnchor(inv).value.screenId,
        Legacy.PositionOf(d).value, false));
    hide Apply, ValidLayout, Edit, Legacy.LocalAnchor, Legacy.OnlineRemotes;
  }

  // ---------- Exactly when a turn fails ----------

  // The cursor is on a remote screen that is no longer routable and the host's own screen is offline.
  predicate Homeless(host: SessionState, t: ScreenTopology)
    requires host.routing.ScreenRouting?
  {
    var active, localScreen := host.routing.router.active, host.routing.localScreen;
    active != localScreen && !OnlineAndLinked(t, active) && !IsOnline(t, localScreen)
  }

  // The motion is about to carry the cursor onto another screen of the host's own device.
  predicate OntoOwnMonitor(host: SessionState, m: Motion, self: DeviceId)
    requires host.Valid() && host.routing.ScreenRouting?
  {
    var r := host.routing.router;
    WillCross(r, m.dx, m.dy, Some(m.timestamp)) &&
    var target := LinkedEdge(r.topology, r.active, r.Pushed(m.dx, m.dy).value).value.screenId;
    target != host.routing.localScreen && OwnerOf(target) == self
  }

  predicate Doomed(loop: HostLoop, ev: LoopEvent)
    requires loop.sys.host.Valid() && loop.sys.host.routing.ScreenRouting?
  {
    if ev.Within? then
      ev.event.Captured? && ev.event.event.PhysicalMotion?
          && OntoOwnMonitor(loop.sys.host, ev.event.event.motion, loop.self)
    else
      var layout := LayoutAfter(loop, ev);
      if layout.Failure? then true
      else
        var t := Resolve(layout.value, InventoryAfter(loop, ev));
        t.Success? && Homeless(loop.sys.host, t.value)
  }

  // A screen that is online in the topology of the moment is this device's or a connected one's.
  lemma OnlineIsAttributed(loop: HostLoop, id: ScreenId)
    requires LoopSound(loop) && IsOnline(loop.sys.topology, id)
    ensures OwnerOf(id) == loop.self || OwnerOf(id) in loop.sys.peers
  {
    var t, inv := loop.sys.topology, loop.inventory;
    FindScreenExact(t.screens, id);
    Inv.OrderlyIsValid(inv);
    OwnerIsDevice(t, id);
    hide Sound, Inv.Orderly, Inv.SlashFree, ValidLayout, CheckLayout, OwnerOf, NamedByOwner, ValidInventory;
    var i :| 0 <= i < |t.screens| && t.screens[i] == FindScreen(t.screens, id).value;
    assert t.screens[i] == NodeFor(inv[i], loop.layout.sizeOverrides);
  }

  lemma StrandingIsOwnMonitor(loop: HostLoop, m: Motion)
    requires LoopSound(loop)
    ensures Stranding(loop.sys.host, m, loop.sys.peers.Keys) <==> OntoOwnMonitor(loop.sys.host, m, loop.self)
  {
    var r := loop.sys.host.routing.router;
    if WillCross(r, m.dx, m.dy, Some(m.timestamp)) {
      OnlineIsAttributed(loop, LinkedEdge(r.topology, r.active, r.Pushed(m.dx, m.dy).value).value.screenId);
    }
    hide Inv.Orderly, Inv.SlashFree, ValidLayout, Resolve, OwnerOf, Attributed, WillCross, PeersSound, Consistent,
      Bounded, RoutesOnline, CanonicalHeld, NamedByOwner, Attended, RouterState.Pushed, LinkedEdge;
  }

  // No screen is ever forgotten, so the one the cursor is on stays known.
  lemma ActiveStaysKnown(loop: HostLoop, l: ScreenLayout, inv: ScreenInventory)
    requires LoopSound(loop) && ValidLayout(l, inv) && KnownIds(loop.inventory) <= KnownIds(inv)
    ensures Resolve(l, inv).Success? && ValidTopology(Resolve(l, inv).value)
    ensures Knows(Resolve(l, inv).value, loop.sys.host.routing.router.active)
  {
    var active := loop.sys.host.routing.router.active;
    ResolvedIsValid(l, inv);
    ResolvedIsValid(loop.layout, loop.inventory);
    KnownIffListed(loop.sys.topology, active);
    KnownIffListed(Resolve(l, inv).value, active);
    assert NodeIds(NodesFor(inv, l.sizeOverrides)) == InventoryIds(inv);
    assert NodeIds(NodesFor(loop.inventory, loop.layout.sizeOverrides)) == InventoryIds(loop.inventory);
    hide Inv.Orderly, Inv.SlashFree, ValidLayout, ValidTopology, CheckLayout, Attributed, PeersSound, Knows;
  }

  lemma FollowedUnlessHomeless(loop: HostLoop, l: ScreenLayout, inv: ScreenInventory)
    requires LoopSound(loop) && ValidLayout(l, inv) && KnownIds(loop.inventory) <= KnownIds(inv)
    ensures Resolve(l, inv).Success?
    ensures CanFollow(loop.sys.host, Resolve(l, inv).value) <==> !Homeless(loop.sys.host, Resolve(l, inv).value)
  {
    ActiveStaysKnown(loop, l, inv);
    hide LoopSound, ValidLayout, Resolve, KnownIds, ValidTopology, Routable, IsOnline, Knows;
  }

  lemma ResolvedIsNamed(l: ScreenLayout, inv: ScreenInventory)
    requires Inv.Orderly(inv) && Resolve(l, inv).Success?
    ensures NamedByOwner(Resolve(l, inv).value)
  {
    Inv.OrderlyIsValid(inv);
    hide Inv.Orderly, NamedByOwner, Resolve;
  }

  // What the loop tells the system is admissible.
  lemma ToldIsAdmissible(loop: HostLoop, ev: LoopEvent, l: ScreenLayout)
    requires LoopSound(loop) && LoopEnabled(loop, ev) && LoopAdmissible(loop, ev) && !ev.Within?
    requires Resolve(l, InventoryAfter(loop, ev)).Success?
    ensures var told := Told(loop, ev, Resolve(l, InventoryAfter(loop, ev)).value);
            Enabled(loop.sys, told) && Admissible(told)
  {
    hide LoopSound, LoopAdmissible, WellTyped, Inv.Orderly, NamedByOwner, Resolve, Attributed, KnownIds, Inv.Merged,
      AllOffline;
    InventoryStep(loop, ev);
    ResolvedIsNamed(l, InventoryAfter(loop, ev));
    if ev.Left? {
      OfflineStaysOffline(l, loop.inventory, ev.device);
    }
  }

  lemma OfflineStaysOffline(l: ScreenLayout, inv: ScreenInventory, d: DeviceId)
    requires Resolve(l, Inv.Offline(inv, d)).Success?
    ensures AllOffline(Resolve(l, Inv.Offline(inv, d)).value, d)
  {
    hide CheckLayout;
  }

  lemma KeysAfter(sys: System, ev: SystemEvent)
    requires Sound(sys) && Enabled(sys, ev) && Admissible(ev) && WellTyped(sys) && Next(sys, ev).Success?
    ensures var sys' := Next(sys, ev).value;
            && sys'.peers.Keys == (match ev
                                   case Connect(d, _) => sys.peers.Keys + {d}
                                   case Disconnect(d, _) => sys.peers.Keys - {d}
                                   case _ => sys.peers.Keys)
            && sys'.topology == if TopologyOf(ev).Some? then TopologyOf(ev).value else sys.topology
  {
    hide Sound, Drained, SessionState.Handle, SessionState.ReplaceTopology, Take, Receive, Acceptable, Beaten,
      Informed;
    match ev
    case Captured(event) => ExecutedKeys(sys.peers, sys.topology, sys.host.Handle(event).1);
    case Stop => ExecutedKeys(sys.peers, sys.topology, sys.host.Handle(StopRequested).1);
    case Update(t) => ReplacedKeys(sys, sys.peers, t);
    case Disconnect(d, t) => ReplacedKeys(sys, sys.peers - {d}, t);
    case Connect(d, t) => ReplacedKeys(sys, sys.peers, t);
    case Deliver(d) =>
    case Datagram(d, m) =>
    case Beat =>
    case Report(screens) =>
  }

  /** One turn of the loop: it fails exactly when the cursor crosses onto another monitor of the host
      itself, when it is on a screen that is lost while the host's own is offline, or when a joining
      peer meets a direction that cannot be migrated. Otherwise everything is sound again. */
  lemma TurnExact(loop: HostLoop, ev: LoopEvent)
    requires LoopSound(loop) && LoopEnabled(loop, ev) && LoopAdmissible(loop, ev)
    ensures Turn(loop, ev).Failure? <==> Doomed(loop, ev)
    ensures Turn(loop, ev).Success? ==> LoopSound(Turn(loop, ev).value)
  {
    if ev.Within? {
      WithinExact(loop, ev.event);
    } else if LayoutAfter(loop, ev).Success? {
      OutsideExact(loop, ev);
    }
    hide LoopSound, Homeless, OntoOwnMonitor, Resolve;
  }

  lemma WithinExact(loop: HostLoop, ev: SystemEvent)
    requires LoopSound(loop) && LoopEnabled(loop, Within(ev)) && Admissible(ev)
    ensures Turn(loop, Within(ev)).Failure? <==> Doomed(loop, Within(ev))
    ensures Turn(loop, Within(ev)).Success? ==> LoopSound(Turn(loop, Within(ev)).value)
  {
    hide Inv.Orderly, Inv.SlashFree, ValidLayout, Attributed, Resolve, Sound, Next, Stranding, OntoOwnMonitor,
      Enabled, Admissible;
    StepKeepsSound(loop.sys, ev);
    if ev.Captured? && ev.event.PhysicalMotion? {
      StrandingIsOwnMonitor(loop, ev.event.motion);
    }
    if Next(loop.sys, ev).Success? {
      KeysAfter(loop.sys, ev);
    }
  }

  lemma OutsideExact(loop: HostLoop, ev: LoopEvent)
    requires LoopSound(loop) && LoopEnabled(loop, ev) && LoopAdmissible(loop, ev) && !ev.Within?
    requires LayoutAfter(loop, ev).Success?
    ensures Turn(loop, ev).Failure? <==> Doomed(loop, ev)
    ensures Turn(loop, ev).Success? ==> LoopSound(Turn(loop, ev).value)
  {
    hide Inv.Orderly, Inv.SlashFree, ValidLayout, Attributed, Resolve, Sound, Next, CanFollow, Homeless, Enabled,
      Admissible, LayoutAfter, InventoryAfter, KnownIds;
    var l, inv := LayoutAfter(loop, ev).value, InventoryAfter(loop, ev);
    InventoryStep(loop, ev);
    LayoutStep(loop, ev);
    FollowedUnlessHomeless(loop, l, inv);
    ToldIsAdmissible(loop, ev, l);
    var told := Told(loop, ev, Resolve(l, inv).value);
    StepKeepsSound(loop.sys, told);
    if Next(loop.sys, told).Success? {
      KeysAfter(loop.sys, told);
      assert Next(loop.sys, told).value.peers.Keys == DevicesAfter(loop, ev);
    }
  }

  // ---------- Starting, and whole runs ----------

  // The inventory is reconciled with the screens detected here, and the session is opened on the first
  // online one of them.
  function StartInventory(self: DeviceId, name: string, stored: ScreenInventory,
                          detected: seq<Inv.ReportedScreen>): ScreenInventory {
    Inv.After(stored, Inv.Reconcile(Inv.Reporter(true, self, name), detected))
  }

  function StartLoop(self: DeviceId, layout: ScreenLayout, inv: ScreenInventory,
                     direction: Option<CursorRouting.ScreenDirection>, x: I32, y: I32)
    : Option<HostLoop>
  {
    var t := Resolve(layout, inv);
    if t.Failure? || Start.HostNode(t.value.screens).None? then None
    else
      var router := Opened(t.value, Start.HostNode(t.value.screens).value, x, y);
      if router.Failure? then None
      else Some(HostLoop(self, System(NewTopologyHost(router.value), t.value, map[], false), layout, inv, direction))
  }

  /** Over any stored inventory and layout that load, a host that detects a screen starts if and only if
      none of the IDs it detects is recorded for another device. */
  lemma StartExact(self: DeviceId, name: string, layout: ScreenLayout, stored: ScreenInventory,
                   detected: seq<Inv.ReportedScreen>, direction: Option<CursorRouting.ScreenDirection>, x: I32,
                   y: I32)
    requires ValidLayout(layout, stored) && detected != []
    ensures StartLoop(self, layout, StartInventory(self, name, stored, detected), direction, x, y).Some?
            <==> Inv.Clean(stored, Inv.Reporter(true, self, name), detected)
  {
    var r := Inv.Reporter(true, self, name);
    var inv := StartInventory(self, name, stored, detected);
    Inv.LayoutAfterEvent(layout, stored, stored, Inv.Reconcile(r, detected));
    Inv.ReportedIsHost(Inv.AllDimmed(stored), r, detected);
    CheckLayoutExact(layout, inv);
    hide ValidLayout, Inv.Clean, Inv.HostScreen, Inv.Merged, CheckLayout, StartLoop, Resolve;
    if ValidLayout(layout, inv) {
      StartOpens(self, layout, inv, direction, x, y);
    } else {
      InvalidNeverStarts(self, layout, inv, direction, x, y);
    }
  }

  lemma InvalidNeverStarts(self: DeviceId, layout: ScreenLayout, inv: ScreenInventory,
                           direction: Option<CursorRouting.ScreenDirection>, x: I32, y: I32)
    requires !ValidLayout(layout, inv)
    ensures StartLoop(self, layout, inv, direction, x, y).None?
  {
    CheckLayoutExact(layout, inv);
    hide ValidLayout, CheckLayout;
  }

  lemma StartOpens(self: DeviceId, layout: ScreenLayout, inv: ScreenInventory,
                   direction: Option<CursorRouting.ScreenDirection>, x: I32, y: I32)
    requires ValidLayout(layout, inv) && Inv.HostScreen(inv).Some?
    ensures var start := StartLoop(self, layout, inv, direction, x, y);
            && start.Some? && Resolve(layout, inv).Success?
            && var t, host := Resolve(layout, inv).value, Inv.HostScreen(inv).value.screenId;
            && Opened(t, host, x, y).Success?
            && start.value == HostLoop(self, System(NewTopologyHost(Opened(t, host, x, y).value), t, map[], false),
                 layout, inv, direction)
  {
    hide ValidLayout, Inv.HostScreen, Start.HostNode, NodesFor;
    ResolvedIsValid(layout, inv);
    Start.HostNodeIsHostScreen(inv, layout.sizeOverrides);
    HostNodeIsKnown(inv, layout);
    CheckTopologyExact(Resolve(layout, inv).value);
    hide CheckTopology, ValidTopology;
  }

  /** If moreover the stored screens are named by their devices, it always starts, and soundly. */
  lemma StartIsSound(self: DeviceId, name: string, layout: ScreenLayout, stored: ScreenInventory,
                     detected: seq<Inv.ReportedScreen>, direction: Option<CursorRouting.ScreenDirection>, x: I32,
                     y: I32)
    requires Inv.Orderly(stored) && Inv.SlashFree(self) && detected != [] && ValidLayout(layout, stored)
    ensures var start := StartLoop(self, layout, StartInventory(self, name, stored, detected), direction, x, y);
            start.Some? && LoopSound(start.value)
  {
    var r, inv := Inv.Reporter(true, self, name), StartInventory(self, name, stored, detected);
    Inv.EventKeepsOrder(stored, Inv.Reconcile(r, detected));
    Inv.OrderlyIsValid(inv);
    Inv.GrownInventoryKeepsLayout(layout, stored, inv);
    Inv.ReportedIsHost(Inv.AllDimmed(stored), r, detected);
    ReconcileAttributed(stored, self, name, detected);
    hide Inv.Orderly, Inv.SlashFree, ValidLayout, ValidInventory, KnownIds, Attributed, StartInventory,
      Inv.HostScreen, Sound;
    StartedIsSound(self, layout, inv, direction, x, y);
  }

  // A new host with one screen is such a start, so the invariant of the loop can be met.
  lemma SomeHostStarts()
    ensures exists loop :: LoopSound(loop)
  {
    var screen := Inv.ReportedScreen("1", "1", Dimensions(1, 1), true);
    StartIsSound("h", "h", DEFAULT_LAYOUT, [], [screen], None, 0, 0);
    hide LoopSound, StartLoop, StartInventory;
  }

  lemma StartedIsSound(self: DeviceId, layout: ScreenLayout, inv: ScreenInventory,
                       direction: Option<CursorRouting.ScreenDirection>, x: I32, y: I32)
    requires Inv.Orderly(inv) && ValidLayout(layout, inv) && Inv.HostScreen(inv).Some?
    ensures var start := StartLoop(self, layout, inv, direction, x, y);
            && start.Some? && Sound(start.value.sys) && start.value.sys.peers == map[]
            && start.value.layout == layout && start.value.inventory == inv && start.value.self == self
            && Resolve(layout, inv) == Success(start.value.sys.topology)
  {
    hide Inv.Orderly, ValidLayout, Inv.HostScreen, Initial, Sound, Resolve, ValidTopology, NamedByOwner, StartLoop;
    StartOpens(self, layout, inv, direction, x, y);
    var t, host := Resolve(layout, inv).value, Inv.HostScreen(inv).value.screenId;
    OpenedIsInitial(t, host, x, y);
    ResolvedIsNamed(layout, inv);
    var sys := StartLoop(self, layout, inv, direction, x, y).value.sys;
    RunStarts(sys);
    RunsStaySound([sys], [], 0);
  }

  lemma HostNodeIsKnown(inv: ScreenInventory, layout: ScreenLayout)
    requires ValidLayout(layout, inv) && Inv.HostScreen(inv).Some?
    ensures Resolve(layout, inv).Success? && Knows(Resolve(layout, inv).value, Inv.HostScreen(inv).value.screenId)
  {
    FirstWhereFound((s: ScreenDescriptor) => s.thisDevice && s.online, inv);
    Legacy.ResolvedOnline(layout, inv, Inv.HostScreen(inv).value);
  }

  // A run of the loop: successive turns from a sound start.
  ghost predicate IsLoopRun(loops: seq<HostLoop>, evs: seq<LoopEvent>) {
    && |loops| == |evs| + 1 && LoopSound(loops[0])
    && forall i | 0 <= i < |evs| ::
         && LoopEnabled(loops[i], evs[i]) && LoopAdmissible(loops[i], evs[i])
         && Turn(loops[i], evs[i]) == Success(loops[i + 1])
  }

  lemma {:induction false} LoopRunsStaySound(loops: seq<HostLoop>, evs: seq<LoopEvent>, n: nat)
    requires IsLoopRun(loops, evs) && n <= |evs|
    ensures LoopSound(loops[n])
  {
    hide LoopSound, LoopAdmissible, Turn;
    if n > 0 {
      LoopRunsStaySound(loops, evs, n - 1);
      TurnExact(loops[n - 1], evs[n - 1]);
    }
  }

  /** Over every run of the loop, whoever joins, leaves, reports or rearranges screens, each connected
      client will hold exactly what is due to it, and the next turn fails only in the ways stated. */
  lemma LoopClientsHoldWhatIsDue(loops: seq<HostLoop>, evs: seq<LoopEvent>, n: nat, d: DeviceId)
    requires IsLoopRun(loops, evs) && n <= |evs| && d in loops[n].sys.peers
    ensures var c := loops[n].sys.peers[d];
            Drained(c.Machine().On(Here), c.queue) == Due(loops[n].sys.host, d)
  {
    LoopRunsStaySound(loops, evs, n);
    hide IsLoopRun, Drained, Due, Inv.Orderly, ValidLayout, HostSound, Resolve;
  }

  /** In particular, with the direction, if any, migrated, and while the local screen is the only one of
      the host's own that is online and stays so, no turn of any run fails. */
  lemma SingleMonitorNeverFails(loops: seq<HostLoop>, evs: seq<LoopEvent>, ev: LoopEvent)
    requires IsLoopRun(loops, evs)
    requires var last := loops[|evs|];
             && LoopEnabled(last, ev) && LoopAdmissible(last, ev) && last.direction.None?
             && last.sys.host.routing.ScreenRouting?
             && var localScreen := last.sys.host.routing.localScreen;
             && OnlyMonitor(last.inventory, last.self, localScreen)
                  && StaysOnline(InventoryAfter(last, ev), localScreen)
    ensures Turn(loops[|evs|], ev).Success?
  {
    var last := loops[|evs|];
    LoopRunsStaySound(loops, evs, |evs|);
    TurnExact(last, ev);
    if ev.Within? {
      if ev.event.Captured? && ev.event.event.PhysicalMotion? {
        OnlyMonitorIsNotCrossed(last, ev.event.event.motion);
      }
    } else {
      LayoutStep(last, ev);
      OnlineAtHome(LayoutAfter(last, ev).value, InventoryAfter(last, ev), last.sys.host.routing.localScreen);
    }
    hide IsLoopRun, LoopSound, Turn, LoopEnabled, LoopAdmissible, OntoOwnMonitor, OnlyMonitor, StaysOnline, Resolve,
      InventoryAfter, ValidLayout;
  }

  // Of the host's own screens only the local one is online.
  predicate OnlyMonitor(inv: ScreenInventory, self: DeviceId, localScreen: ScreenId) {
    forall i | 0 <= i < |inv| :: inv[i].deviceId == self && inv[i].online ==> inv[i].screenId == localScreen
  }

  predicate StaysOnline(inv: ScreenInventory, id: ScreenId) {
    exists i | 0 <= i < |inv| :: inv[i].screenId == id && inv[i].online
  }

  lemma OnlineAtHome(l: ScreenLayout, inv: ScreenInventory, id: ScreenId)
    requires ValidLayout(l, inv) && StaysOnline(inv, id)
    ensures Resolve(l, inv).Success? && IsOnline(Resolve(l, inv).value, id)
  {
    var i :| 0 <= i < |inv| && inv[i].screenId == id && inv[i].online;
    Legacy.ResolvedOnline(l, inv, inv[i]);
    hide ValidLayout;
  }

  lemma OnlyMonitorIsNotCrossed(loop: HostLoop, m: Motion)
    requires LoopSound(loop) && OnlyMonitor(loop.inventory, loop.self, loop.sys.host.routing.localScreen)
    ensures !OntoOwnMonitor(loop.sys.host, m, loop.self)
  {
    hide Inv.Orderly, Inv.SlashFree, ValidLayout, Resolve, OwnerOf, Attributed, OnlyMonitor, PeersSound, Bounded,
      RoutesOnline, CanonicalHeld, NamedByOwner, Attended, RouterState.Pushed, FindPeer;
    var r := loop.sys.host.routing.router;
    if OntoOwnMonitor(loop.sys.host, m, loop.self) {
      OnlineScreenIsLocal(loop, LinkedEdge(r.topology, r.active, r.Pushed(m.dx, m.dy).value).value.screenId);
    }
  }

  lemma OnlineScreenIsLocal(loop: HostLoop, id: ScreenId)
    requires LoopSound(loop) && OnlyMonitor(loop.inventory, loop.self, loop.sys.host.routing.localScreen)
    requires IsOnline(loop.sys.topology, id) && OwnerOf(id) == loop.self
    ensures id == loop.sys.host.routing.localScreen
  {
    var t, inv := loop.sys.topology, loop.inventory;
    FindScreenExact(t.screens, id);
    OwnerIsDevice(t, id);
    hide Sound, Inv.Orderly, Inv.SlashFree, ValidLayout, CheckLayout, OwnerOf, NamedByOwner, Attributed;
    var i :| 0 <= i < |t.screens| && t.screens[i] == FindScreen(t.screens, id).value;
    assert t.screens[i] == NodeFor(inv[i], loop.layout.sizeOverrides);
  }
}
