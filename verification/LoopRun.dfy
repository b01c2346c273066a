/** Runs of the host's loop as runs of the system, and the direction that is migrated once. */
module LoopRuns {
  import opened MachineInts
  import opened Wrappers
  import opened ScreenModel
  import opened LayoutModel
  import CursorRouting
  import Legacy = Migration
  import Inv = InventoryMerging
  import opened LayoutProperties
  import opened LayoutOutcomes
  import opened Sequences
  import opened DesktopSessions
  import opened OwnershipRuns
  import opened HostClient
  import opened Composition
  import opened Deliveries
  import opened HostLoops

  // ---------- A run of the loop is a run of the system ----------

  // What a turn means to the system: its own event, or the topology resolved in that turn. A turn that gets
  // no further than its layout means nothing to it.
  function EventOf(loop: HostLoop, ev: LoopEvent): SystemEvent {
    if ev.Within? then ev.event
    else
      var layout := LayoutAfter(loop, ev);
      if layout.Failure? then Beat
      else
        var t := Resolve(layout.value, InventoryAfter(loop, ev));
        if t.Failure? then Beat else Told(loop, ev, t.value)
  }

  lemma TurnIsStep(loop: HostLoop, ev: LoopEvent)
    requires LoopSound(loop) && LoopEnabled(loop, ev) && LoopAdmissible(loop, ev) && Turn(loop, ev).Success?
    ensures WellTyped(loop.sys) && Enabled(loop.sys, EventOf(loop, ev)) && Admissible(EventOf(loop, ev))
    ensures Next(loop.sys, EventOf(loop, ev)) == Success(Turn(loop, ev).value.sys)
  {
    hide LoopSound, Next, LayoutAfter, InventoryAfter, Resolve, Told;
    if !ev.Within? {
      ToldIsAdmissible(loop, ev, LayoutAfter(loop, ev).value);
    }
  }

  function SystemsOf(loops: seq<HostLoop>): (states: seq<System>)
    ensures |states| == |loops| && forall i | 0 <= i < |loops| :: states[i] == loops[i].sys
  {
    seq(|loops|, i requires 0 <= i < |loops| => loops[i].sys)
  }

  function EventsOf(loops: seq<HostLoop>, evs: seq<LoopEvent>): (steps: seq<SystemEvent>)
    requires |evs| <= |loops|
    ensures |steps| == |evs| && forall i | 0 <= i < |evs| :: steps[i] == EventOf(loops[i], evs[i])
  {
    seq(|evs|, i requires 0 <= i < |evs| => EventOf(loops[i], evs[i]))
  }

  // The loop as it starts: nobody has connected, and the cursor is on the local screen.
  predicate AtStart(loop: HostLoop) {
    && Initial(loop.sys.host) && loop.sys.host.routing.ScreenRouting?
    && loop.sys.peers == map[] && !loop.sys.capturing
  }

  /** From its start a run of the loop, whatever is reported and rearranged, is a run of host and clients; so
      whatever holds over all of those holds in the loop. */
  lemma LoopRunIsRun(loops: seq<HostLoop>, evs: seq<LoopEvent>)
    requires IsLoopRun(loops, evs) && AtStart(loops[0])
    ensures IsRun(SystemsOf(loops), EventsOf(loops, evs))
  {
    var states, steps := SystemsOf(loops), EventsOf(loops, evs);
    StartIsNamed(loops[0]);
    hide LoopSound, IsLoopRun, Next, Enabled, Admissible, WellTyped, EventOf, Initial, NamedByOwner;
    forall i | 0 <= i < |evs|
      ensures WellTyped(states[i]) && Enabled(states[i], steps[i]) && Admissible(steps[i])
      ensures Next(states[i], steps[i]) == Success(states[i + 1])
    {
      TurnAt(loops, evs, i);
    }
  }

  lemma TurnAt(loops: seq<HostLoop>, evs: seq<LoopEvent>, i: nat)
    requires IsLoopRun(loops, evs) && i < |evs|
    ensures var sys, step := loops[i].sys, EventOf(loops[i], evs[i]);
            WellTyped(sys) && Enabled(sys, step) && Admissible(step) && Next(sys, step) == Success(loops[i + 1].sys)
  {
    hide LoopSound, LoopEnabled, LoopAdmissible, Turn, Next, EventOf, WellTyped, Enabled, Admissible;
    LoopRunsStaySound(loops, evs, i);
    assert LoopEnabled(loops[i], evs[i]) && Turn(loops[i], evs[i]) == Success(loops[i + 1]);
    TurnIsStep(loops[i], evs[i]);
  }

  lemma StartIsNamed(loop: HostLoop)
    requires LoopSound(loop) && AtStart(loop)
    ensures NamedByOwner(loop.sys.topology) && loop.sys.topology == loop.sys.host.routing.router.topology
  {
  }

  /** In particular, drain the stream of any client at any time: all that it has done to its machine, motions
      apart, is what follows from obeying in order what it ought to have been told. */
  lemma LoopClientsObey(loops: seq<HostLoop>, evs: seq<LoopEvent>, n: nat, d: DeviceId)
    requires IsLoopRun(loops, evs) && AtStart(loops[0]) && n <= |evs| && d in loops[n].sys.peers
    ensures IsRun(SystemsOf(loops), EventsOf(loops, evs)) && ClientSound(loops[n].sys.peers[d])
    ensures Still(DrainAll(loops[n].sys.peers[d]).performed)
            == Obeyed({}, Given(SystemsOf(loops), EventsOf(loops, evs), n, d))
  {
    hide IsRun, EventOf, Still, DrainAll, Obeyed, Given, LoopSound, AtStart, ClientSound, LoopAdmissible, Turn;
    LoopRunIsRun(loops, evs);
    DrainedClientsObeyed(SystemsOf(loops), EventsOf(loops, evs), n, d);
  }

  // ---------- What a turn records ----------

  /** A turn that succeeds records what was reported: afterwards each reported screen is known and online under
      the reported name and size, the screens of a device that left are offline, and everything else is
      untouched. Only a change from outside, or a direction, changes the layout. */
  lemma TurnRecords(loop: HostLoop, ev: LoopEvent)
    requires LoopSound(loop) && LoopEnabled(loop, ev) && LoopAdmissible(loop, ev) && Turn(loop, ev).Success?
    requires (ev.Joined? || ev.PeerReported? || ev.HostReported?) ==>
               forall i, j | 0 <= i < j < |ev.screens| :: ev.screens[i].stableId != ev.screens[j].stableId
    ensures var next := Turn(loop, ev).value;
            && (ev.Joined? || ev.PeerReported? ==>
                  && (forall s | s in ev.screens :: Inv.Describes(next.inventory, ev.peer, s))
                  && Inv.SameElsewhere(loop.inventory, next.inventory, ev.peer.deviceId))
            && (ev.HostReported? ==>
                  && (forall s | s in ev.screens ::
                        Inv.Describes(next.inventory, Inv.Reporter(true, loop.self, ev.name), s))
                  && Inv.SameElsewhere(loop.inventory, next.inventory, loop.self))
            && (ev.Left? ==>
                  && |next.inventory| == |loop.inventory|
                  && forall i | 0 <= i < |loop.inventory| ::
                       next.inventory[i] == if loop.inventory[i].deviceId == ev.device
                                            then loop.inventory[i].(online := false) else loop.inventory[i])
            && (ev.Relaid? ==> next.layout == ev.layout)
            && (!ev.Relaid? && !(ev.Joined? && loop.direction.Some?) ==> next.layout == loop.layout)
            && (ev.Relaid? || ev.Within? ==> next.inventory == loop.inventory)
            && next.direction == if ev.Joined? then None else loop.direction
  {
    hide Inv.Describes, Inv.Merged, Inv.Orderly, Inv.SameElsewhere, Sound, ValidLayout, Attributed, Resolve, Next,
      Admissible, Enabled, Legacy.MigrateLegacyDirection;
    if ev.Joined? || ev.PeerReported? {
      Inv.MergeDescribes(loop.inventory, ev.peer, ev.screens);
      Inv.MergeExact(loop.inventory, ev.peer, ev.screens);
    } else if ev.HostReported? {
      Inv.MergeDescribes(loop.inventory, Inv.Reporter(true, loop.self, ev.name), ev.screens);
      Inv.MergeExact(loop.inventory, Inv.Reporter(true, loop.self, ev.name), ev.screens);
    }
  }

  // ---------- The direction ----------

  // The link that puts the remote screen on this side of the local one.
  predicate JoinsToward(link: ScreenLink, local: ScreenId, remote: ScreenId, d: CursorRouting.ScreenDirection) {
    match d
    case Left => link == ScreenLink(ScreenEdge(local, Edge.Left), ScreenEdge(remote, Edge.Right))
    case Right => link == ScreenLink(ScreenEdge(local, Edge.Right), ScreenEdge(remote, Edge.Left))
    case Top => link == ScreenLink(ScreenEdge(local, Edge.Top), ScreenEdge(remote, Edge.Bottom))
    case Bottom => link == ScreenLink(ScreenEdge(local, Edge.Bottom), ScreenEdge(remote, Edge.Top))
    case _ => false
  }

  // The first primary screen of this device, or its first screen if it has no primary one.
  predicate Anchors(inv: ScreenInventory, i: nat)
    requires i < |inv|
  {
    && inv[i].thisDevice
    && if inv[i].primary then forall j | 0 <= j < i :: !(inv[j].thisDevice && inv[j].primary)
       else (forall j | 0 <= j < |inv| :: !(inv[j].thisDevice && inv[j].primary))
            && forall j | 0 <= j < i :: !inv[j].thisDevice
  }

  lemma {:induction false} FirstWhereFirst(keep: ScreenDescriptor -> bool, inv: ScreenInventory)
    requires FirstWhere(keep, inv).Some?
    ensures exists i :: 0 <= i < |inv| && inv[i] == FirstWhere(keep, inv).value && keep(inv[i])
                && forall j | 0 <= j < i :: !keep(inv[j])
  {
    if keep(inv[0]) {
      assert inv[0] == FirstWhere(keep, inv).value;
    } else {
      FirstWhereFirst(keep, inv[1..]);
      var i :| 0 <= i < |inv[1..]| && inv[1..][i] == FirstWhere(keep, inv[1..]).value && keep(inv[1..][i])
          && forall j | 0 <= j < i :: !keep(inv[1..][j]);
      assert inv[i + 1] == inv[1..][i];
      assert forall j | 0 < j < i + 1 :: inv[j] == inv[1..][j - 1];
    }
  }

  lemma AnchorExact(inv: ScreenInventory)
    requires Legacy.LocalAnchor(inv).Some?
    ensures exists i :: 0 <= i < |inv| && inv[i] == Legacy.LocalAnchor(inv).value && Anchors(inv, i)
  {
    var primary, own := (s: ScreenDescriptor) => s.thisDevice && s.primary, (s: ScreenDescriptor) => s.thisDevice;
    FirstWhereFound(primary, inv);
    if FirstWhere(primary, inv).Some? {
      FirstWhereFirst(primary, inv);
      var i :| 0 <= i < |inv| && inv[i] == FirstWhere(primary, inv).value && primary(inv[i])
          && forall j | 0 <= j < i :: !primary(inv[j]);
      assert Anchors(inv, i);
    } else {
      FirstWhereFirst(own, inv);
      var i :| 0 <= i < |inv| && inv[i] == FirstWhere(own, inv).value && own(inv[i])
          && forall j | 0 <= j < i :: !own(inv[j]);
      assert forall j | 0 <= j < |inv| :: !primary(inv[j]);
      assert Anchors(inv, i);
    }
  }

  /** With a direction set, the first peer that joins has its one online screen linked to the host's anchor in
      that direction: that becomes the only link, one revision up, and the direction is used up. */
  lemma JoinMigrates(loop: HostLoop, ev: LoopEvent)
    requires LoopEnabled(loop, ev) && ev.Joined? && loop.direction.Some? && Turn(loop, ev).Success?
    ensures var next := Turn(loop, ev).value;
            && next.direction.None? && |next.layout.links| == 1
            && next.layout.sizeOverrides == loop.layout.sizeOverrides
            && next.layout.revision == SatAddU64(loop.layout.revision, 1)
            && exists i, j ::
                 && 0 <= i < |next.inventory| && 0 <= j < |next.inventory| && Anchors(next.inventory, i)
                 && next.inventory[j].online && !next.inventory[j].thisDevice
                 && JoinsToward(next.layout.links[0], next.inventory[i].screenId, next.inventory[j].screenId,
                      loop.direction.value)
  {
    var inv, d := InventoryAfter(loop, ev), loop.direction.value;
    var next := Turn(loop, ev).value;
    hide LoopEnabled, Next, Resolve, Inv.Merged, Enabled;
    assert next.inventory == inv && Legacy.MigrateLegacyDirection(loop.layout, inv, d) == Success(next.layout);
    MigratedLink(loop.layout, inv, d);
  }

  // Exactly one screen of another device is online.
  predicate OneRemote(inv: ScreenInventory) {
    exists j | 0 <= j < |inv| ::
      && inv[j].online && !inv[j].thisDevice
      && forall k | 0 <= k < |inv| :: inv[k].online && !inv[k].thisDevice ==> k == j
  }

  lemma OneRemoteExact(inv: ScreenInventory)
    ensures OneRemote(inv) <==> |Legacy.OnlineRemotes(inv)| == 1
  {
    var remote := (s: ScreenDescriptor) => !s.thisDevice && s.online;
    OneRetained(remote, inv);
    if j :| OnlyAt(remote, inv, j) {
      assert remote(inv[j]);
    }
    if OneRemote(inv) {
      var j :| 0 <= j < |inv| && inv[j].online && !inv[j].thisDevice
          && forall k | 0 <= k < |inv| :: inv[k].online && !inv[k].thisDevice ==> k == j;
      assert OnlyAt(remote, inv, j);
    }
  }

  /** Exactly when a direction can be migrated into a layout without links: the layout is valid, there is a
      screen of this device, exactly one online screen of another, and the direction is not diagonal. */
  lemma MigratesExactly(l: ScreenLayout, inv: ScreenInventory, d: CursorRouting.ScreenDirection)
    requires l.links == []
    ensures Legacy.MigrateLegacyDirection(l, inv, d).Success? <==>
              && ValidLayout(l, inv) && (exists i | 0 <= i < |inv| :: inv[i].thisDevice) && OneRemote(inv)
              && (d.Left? || d.Right? || d.Top? || d.Bottom?)
  {
    var own := (s: ScreenDescriptor) => s.thisDevice;
    FirstWhereFound((s: ScreenDescriptor) => s.thisDevice && s.primary, inv);
    FirstWhereFound(own, inv);
    OneRemoteExact(inv);
    if Legacy.LocalAnchor(inv).Some? && OneRemote(inv) && Legacy.PositionOf(d).Some? {
      CanBePlaced(l, inv, Legacy.PositionOf(d).value);
    }
    hide Legacy.LocalAnchor, Legacy.OnlineRemotes, OneRemote, Apply, ValidLayout;
  }

  lemma CanBePlaced(l: ScreenLayout, inv: ScreenInventory, position: RelativePosition)
    requires l.links == [] && Legacy.LocalAnchor(inv).Some? && |Legacy.OnlineRemotes(inv)| == 1
    ensures var c := Place(Legacy.OnlineRemotes(inv)[0].screenId, Legacy.LocalAnchor(inv).value.screenId, position,
            false);
            Apply(l, inv, c).Success? <==> ValidLayout(l, inv)
  {
    var anchor, remote := Legacy.LocalAnchor(inv).value, Legacy.OnlineRemotes(inv)[0];
    Legacy.MigrationParties(inv);
    hide Legacy.LocalAnchor, Legacy.OnlineRemotes;
    AcceptedExactly(l, inv, Place(remote.screenId, anchor.screenId, position, false));
    if ValidLayout(l, inv) && anchor.screenId == remote.screenId {
      Legacy.SameIdSameScreen(inv, anchor, remote);
    }
    hide ValidLayout, Apply;
    assert Listed(inv, anchor.screenId) && Listed(inv, remote.screenId);
  }

  lemma MigratedLink(l: ScreenLayout, inv: ScreenInventory, d: CursorRouting.ScreenDirection)
    requires l.links == [] && Legacy.MigrateLegacyDirection(l, inv, d).Success?
    ensures var next := Legacy.MigrateLegacyDirection(l, inv, d).value;
            && |next.links| == 1 && next.sizeOverrides == l.sizeOverrides
            && next.revision == SatAddU64(l.revision, 1)
            && exists i, j ::
                 && 0 <= i < |inv| && 0 <= j < |inv| && Anchors(inv, i) && inv[j].online && !inv[j].thisDevice
                 && JoinsToward(next.links[0], inv[i].screenId, inv[j].screenId, d)
  {
    hide Anchors, ValidLayout, Apply, KnownIds, Edit;
    Legacy.MigrationParties(inv);
    AnchorExact(inv);
    var anchor, remote := Legacy.LocalAnchor(inv).value, Legacy.OnlineRemotes(inv)[0];
    hide Legacy.LocalAnchor, Legacy.OnlineRemotes;
    var c := Place(remote.screenId, anchor.screenId, Legacy.PositionOf(d).value, false);
    ApplyExact(l, inv, c);
    PlacedAlone(l, inv, c);
    var i :| 0 <= i < |inv| && inv[i] == anchor && Anchors(inv, i);
    var j :| 0 <= j < |inv| && inv[j] == remote;
    assert JoinsToward(ScreenLink(PlaceEnds(c).0, PlaceEnds(c).1), inv[i].screenId, inv[j].screenId, d);
  }

  lemma PlacedAlone(l: ScreenLayout, inv: ScreenInventory, c: LayoutCommand)
    requires l.links == [] && c.Place? && Edit(l, inv, c).Success?
    ensures Edit(l, inv, c).value == l.(links := [ScreenLink(PlaceEnds(c).0, PlaceEnds(c).1)])
  {
    hide KnownIds;
  }

  /** From the first peer on, no turn is refused for its direction. */
  lemma {:induction false} DirectionUsedUp(loops: seq<HostLoop>, evs: seq<LoopEvent>, m: nat, n: nat)
    requires IsLoopRun(loops, evs) && m < n <= |evs| && evs[m].Joined?
    ensures loops[n].direction.None?
    ensures forall ev: LoopEvent :: LayoutAfter(loops[n], ev).Success?
  {
    hide LoopSound, LoopAdmissible, LoopEnabled, Next, InventoryAfter, Resolve;
    assert LoopEnabled(loops[n - 1], evs[n - 1]) && Turn(loops[n - 1], evs[n - 1]) == Success(loops[n]);
    if n > m + 1 {
      DirectionUsedUp(loops, evs, m, n - 1);
    }
  }
}
