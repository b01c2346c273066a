/** The persistent layout: user-made links and size overrides over an inventory of screens. */
module LayoutModel {
  import opened MachineInts
  import opened Wrappers
  import opened ScreenModel
  import opened Sequences

  const SCHEMA_VERSION: U16 := 1

  datatype ScreenDescriptor = ScreenDescriptor(
    screenId: ScreenId,
    deviceId: DeviceId,
    deviceName: string,
    name: string,
    logicalSize: ScreenSize,
    primary: bool,
    online: bool,
    thisDevice: bool)

  type ScreenInventory = seq<ScreenDescriptor>

  datatype SizeOverride = SizeOverride(screenId: ScreenId, size: ScreenSize)

  datatype ScreenLayout = ScreenLayout(
    schemaVersion: U16,
    revision: U64,
    links: seq<ScreenLink>,
    sizeOverrides: seq<SizeOverride>)

  const DEFAULT_LAYOUT: ScreenLayout := ScreenLayout(SCHEMA_VERSION, 0, [], [])

  datatype RelativePosition = LeftOf | RightOf | Above | Below

  datatype LayoutCommand =
    | Place(screenId: ScreenId, anchorId: ScreenId, position: RelativePosition, replace: bool)
    | Link(from: ScreenEdge, to: ScreenEdge, replace: bool)
    | Unlink(edge: ScreenEdge)
    | Unplace(screenId: ScreenId)
    | SetSizeOverride(screenId: ScreenId, size: Option<ScreenSize>)
    | Replace(layout: ScreenLayout)

  datatype LayoutError =
    | UnknownScreen(id: ScreenId)
    | EdgeOccupied(edge: ScreenEdge)
    | Invalid(reason: InvalidReason)

  datatype InvalidReason =
    | UnsupportedSchema(version: U16)
    | BadScreenId(fault: TopologyFault)
    | NotFacing
    | DuplicateOverride(id: ScreenId)
    | LinkedToItself

  // The anchor's edge and the placed screen's edge that a relative position joins.
  function PlacementEdges(position: RelativePosition): (Edge, Edge) {
    match position
    case LeftOf => (Left, Right)
    case RightOf => (Right, Left)
    case Above => (Top, Bottom)
    case Below => (Bottom, Top)
  }

  function InventoryIds(inv: ScreenInventory): (ids: seq<ScreenId>)
    ensures |ids| == |inv|
    ensures forall i | 0 <= i < |ids| :: ids[i] == inv[i].screenId
  {
    seq(|inv|, i requires 0 <= i < |inv| => inv[i].screenId)
  }

  function KnownIds(inv: ScreenInventory): set<ScreenId> {
    Elements(InventoryIds(inv))
  }

  // The first screen that passes a test.
  function FirstWhere(keep: ScreenDescriptor -> bool, inv: ScreenInventory): Option<ScreenDescriptor> {
    if inv == [] then None else if keep(inv[0]) then Some(inv[0]) else FirstWhere(keep, inv[1..])
  }

  lemma {:induction false} FirstWhereFound(keep: ScreenDescriptor -> bool, inv: ScreenInventory)
    ensures FirstWhere(keep, inv).Some? ==> FirstWhere(keep, inv).value in inv && keep(FirstWhere(keep, inv).value)
    ensures FirstWhere(keep, inv).None? <==> forall i | 0 <= i < |inv| :: !keep(inv[i])
  {
    if inv != [] {
      FirstWhereFound(keep, inv[1..]);
      assert forall i | 1 <= i < |inv| :: inv[i] == inv[1..][i - 1];
    }
  }

  // Only changes to screens that pass, or new ones that do, could change which is first.
  lemma {:induction false} FirstWhereSame(keep: ScreenDescriptor -> bool, a: ScreenInventory, b: ScreenInventory)
    requires |a| <= |b|
    requires forall i | 0 <= i < |a| :: keep(a[i]) || keep(b[i]) ==> a[i] == b[i]
    requires forall i | |a| <= i < |b| :: !keep(b[i])
    ensures FirstWhere(keep, a) == FirstWhere(keep, b)
  {
    if a == [] {
      FirstWhereFound(keep, b);
    } else if !keep(a[0]) {
      FirstWhereSame(keep, a[1..], b[1..]);
    }
  }

  // ---------- Validity ----------

  predicate ValidOverrides(overrides: seq<SizeOverride>, known: set<ScreenId>) {
    && (forall i | 0 <= i < |overrides| :: overrides[i].screenId in known)
    && (forall i, j | 0 <= i < j < |overrides| :: overrides[i].screenId != overrides[j].screenId)
  }

  predicate ValidInventory(inv: ScreenInventory) {
    ValidIds(InventoryIds(inv))
  }

  predicate ValidLayout(l: ScreenLayout, inv: ScreenInventory) {
    && l.schemaVersion == SCHEMA_VERSION
    && ValidInventory(inv)
    && ValidLinks(l.links, KnownIds(inv))
    && ValidOverrides(l.sizeOverrides, KnownIds(inv))
  }

  function CheckInventory(inv: ScreenInventory): Option<LayoutError> {
    var fault := CheckIds(InventoryIds(inv), {});
    if fault.Some? then Some(Invalid(BadScreenId(fault.value))) else None
  }

  // An endpoint is examined for being known before it is examined for being free.
  function CheckEndpoint(e: ScreenEdge, known: set<ScreenId>, occupied: set<ScreenEdge>): Option<LayoutError> {
    if e.screenId !in known then Some(UnknownScreen(e.screenId))
    else if e in occupied then Some(EdgeOccupied(e))
    else None
  }

  function CheckLayoutLinks(links: seq<ScreenLink>, known: set<ScreenId>,
                            occupied: set<ScreenEdge>): Option<LayoutError> {
    if links == [] then None
    else
      var link := links[0];
      var first := CheckEndpoint(link.from, known, occupied);
      var second := CheckEndpoint(link.to, known, occupied + {link.from});
      if first.Some? then first
      else if second.Some? then second
      else if link.from == link.to || Opposite(link.from.edge) != link.to.edge then Some(Invalid(NotFacing))
      else CheckLayoutLinks(links[1..], known, occupied + {link.from, link.to})
  }

  function CheckOverrides(overrides: seq<SizeOverride>, known: set<ScreenId>,
                          seen: set<ScreenId>): Option<LayoutError> {
    if overrides == [] then None
    else
      var id := overrides[0].screenId;
      if id !in known then Some(UnknownScreen(id))
      else if id in seen then Some(Invalid(DuplicateOverride(id)))
      else CheckOverrides(overrides[1..], known, seen + {id})
  }

  function CheckLayout(l: ScreenLayout, inv: ScreenInventory): Option<LayoutError> {
    if l.schemaVersion != SCHEMA_VERSION then Some(Invalid(UnsupportedSchema(l.schemaVersion)))
    else if CheckInventory(inv).Some? then CheckInventory(inv)
    else
      var links := CheckLayoutLinks(l.links, KnownIds(inv), {});
      if links.Some? then links else CheckOverrides(l.sizeOverrides, KnownIds(inv), {})
  }

  lemma {:induction false} CheckLayoutLinksExact(links: seq<ScreenLink>, known: set<ScreenId>,
                                                 occupied: set<ScreenEdge>)
    ensures CheckLayoutLinks(links, known, occupied).None? <==> FreeLinks(links, known, occupied)
  {
    if links != [] {
      FreeLinksUnfold(links, known, occupied);
      CheckLayoutLinksExact(links[1..], known, occupied + {links[0].from, links[0].to});
      hide FreeLinks;
    }
  }

  predicate FreeOverrides(overrides: seq<SizeOverride>, known: set<ScreenId>, seen: set<ScreenId>) {
    ValidOverrides(overrides, known) && forall i | 0 <= i < |overrides| :: overrides[i].screenId !in seen
  }

  lemma {:induction false} CheckOverridesExact(overrides: seq<SizeOverride>, known: set<ScreenId>, seen: set<ScreenId>)
    ensures CheckOverrides(overrides, known, seen).None? <==> FreeOverrides(overrides, known, seen)
  {
    if overrides != [] {
      var rest, grown := overrides[1..], seen + {overrides[0].screenId};
      CheckOverridesExact(rest, known, grown);
      assert forall i | 0 <= i < |rest| :: rest[i] == overrides[i + 1];
      assert forall i | 0 < i < |overrides| :: overrides[i] == rest[i - 1];
    }
  }

  // The scan accepts exactly the declaratively valid layouts.
  lemma CheckLayoutExact(l: ScreenLayout, inv: ScreenInventory)
    ensures CheckLayout(l, inv).None? <==> ValidLayout(l, inv)
  {
    CheckIdsExact(InventoryIds(inv), {});
    CheckLayoutLinksExact(l.links, KnownIds(inv), {});
    CheckOverridesExact(l.sizeOverrides, KnownIds(inv), {});
  }

  method ValidateInventory(inv: ScreenInventory) returns (error: Option<LayoutError>)
    ensures error == CheckInventory(inv)
    ensures error.None? <==> ValidInventory(inv)
  {
    var names := InventoryIds(inv);
    CheckIdsExact(names, {});
    var ids: set<ScreenId> := {};
    for i := 0 to |inv|
      invariant ids == Elements(names[..i])
      invariant CheckIds(names, {}) == CheckIds(names[i..], ids)
    {
      var id := inv[i].screenId;
      assert names[i..][0] == id && names[i..][1..] == names[i + 1..];
      assert names[..i + 1] == names[..i] + [id];
      if Blank(id) {
        return Some(Invalid(BadScreenId(EmptyScreenId)));
      }
      if id in ids {
        return Some(Invalid(BadScreenId(DuplicateScreenId(id))));
      }
      ids := ids + {id};
    }
    return None;
  }

  /** `ScreenLayout::validate`: the inventory, then every endpoint, then every override. */
  method ValidateLayout(l: ScreenLayout, inv: ScreenInventory) returns (error: Option<LayoutError>)
    ensures error == CheckLayout(l, inv)
    ensures error.None? <==> ValidLayout(l, inv)
  {
    CheckLayoutExact(l, inv);
    hide ValidLayout, CheckIds;
    if l.schemaVersion != SCHEMA_VERSION {
      return Some(Invalid(UnsupportedSchema(l.schemaVersion)));
    }
    error := ValidateInventory(inv);
    if error.Some? {
      return;
    }
    var known := KnownIds(inv);
    var occupied: set<ScreenEdge> := {};
    for i := 0 to |l.links|
      invariant CheckLayoutLinks(l.links, known, {}) == CheckLayoutLinks(l.links[i..], known, occupied)
    {
      var link := l.links[i];
      ghost var before := occupied;
      assert l.links[i..][0] == link && l.links[i..][1..] == l.links[i + 1..];
      error := CheckEndpoint(link.from, known, occupied);
      if error.Some? {
        return;
      }
      occupied := occupied + {link.from};
      error := CheckEndpoint(link.to, known, occupied);
      if error.Some? {
        return;
      }
      occupied := occupied + {link.to};
      if link.from == link.to || Opposite(link.from.edge) != link.to.edge {
        return Some(Invalid(NotFacing));
      }
      assert occupied == before + {link.from, link.to};
    }
    var overridden: set<ScreenId> := {};
    for i := 0 to |l.sizeOverrides|
      invariant CheckOverrides(l.sizeOverrides, known, {}) == CheckOverrides(l.sizeOverrides[i..], known, overridden)
    {
      var id := l.sizeOverrides[i].screenId;
      assert l.sizeOverrides[i..][1..] == l.sizeOverrides[i + 1..];
      if id !in known {
        return Some(UnknownScreen(id));
      }
      if id in overridden {
        return Some(Invalid(DuplicateOverride(id)));
      }
      overridden := overridden + {id};
    }
    return None;
  }

  // ---------- Commands ----------

  // A link that uses one of the two edges about to be joined.
  predicate Occupies(link: ScreenLink, from: ScreenEdge, to: ScreenEdge) {
    Touches(link, from) || Touches(link, to)
  }

  function FirstOccupant(links: seq<ScreenLink>, from: ScreenEdge, to: ScreenEdge): Option<ScreenLink> {
    if links == [] then None
    else if Occupies(links[0], from, to) then Some(links[0])
    else FirstOccupant(links[1..], from, to)
  }

  function Joined(l: ScreenLayout, inv: ScreenInventory, from: ScreenEdge, to: ScreenEdge, replace: bool)
    : Result<ScreenLayout, LayoutError>
  {
    if from.screenId !in KnownIds(inv) then Failure(UnknownScreen(from.screenId))
    else if to.screenId !in KnownIds(inv) then Failure(UnknownScreen(to.screenId))
    else if from.screenId == to.screenId then Failure(Invalid(LinkedToItself))
    else if Opposite(from.edge) != to.edge then Failure(Invalid(NotFacing))
    else
      var occupant := FirstOccupant(l.links, from, to);
      if !replace && occupant.Some? then
        Failure(EdgeOccupied(if Touches(occupant.value, from) then from else to))
      else
        Success(l.(links := Retain((k: ScreenLink) => !Occupies(k, from, to), l.links) + [ScreenLink(from, to)]))
  }

  function PlaceEnds(c: LayoutCommand): (ScreenEdge, ScreenEdge)
    requires c.Place?
  {
    var (anchorEdge, screenEdge) := PlacementEdges(c.position);
    (ScreenEdge(c.anchorId, anchorEdge), ScreenEdge(c.screenId, screenEdge))
  }

  // The edit a command makes, before the revision is raised and the result validated again.
  function Edit(l: ScreenLayout, inv: ScreenInventory, c: LayoutCommand): Result<ScreenLayout, LayoutError> {
    match c
    case Place(_, _, _, replace) => Joined(l, inv, PlaceEnds(c).0, PlaceEnds(c).1, replace)
    case Link(from, to, replace) => Joined(l, inv, from, to, replace)
    case Unlink(edge) =>
      if edge.screenId !in KnownIds(inv) then Failure(UnknownScreen(edge.screenId))
      else Success(l.(links := Retain((k: ScreenLink) => !Touches(k, edge), l.links)))
    case Unplace(id) =>
      if id !in KnownIds(inv) then Failure(UnknownScreen(id))
      else Success(l.(links := Retain((k: ScreenLink) => !TouchesScreen(k, id), l.links)))
    case SetSizeOverride(id, size) =>
      if id !in KnownIds(inv) then Failure(UnknownScreen(id))
      else
        var kept := Retain((o: SizeOverride) => o.screenId != id, l.sizeOverrides);
        Success(l.(sizeOverrides := if size.Some? then kept + [SizeOverride(id, size.value)] else kept))
    case Replace(layout) => Success(layout)
  }

  /** `ScreenLayout::apply`: validate, edit, raise the revision, validate again. */
  function Apply(l: ScreenLayout, inv: ScreenInventory, c: LayoutCommand): Result<ScreenLayout, LayoutError> {
    if CheckLayout(l, inv).Some? then Failure(CheckLayout(l, inv).value)
    else if Edit(l, inv, c).Failure? then Edit(l, inv, c)
    else
      var next := Edit(l, inv, c).value.(revision := SatAddU64(l.revision, 1));
      if CheckLayout(next, inv).Some? then Failure(CheckLayout(next, inv).value) else Success(next)
  }

  // ---------- Resolving ----------

  function OverrideFor(overrides: seq<SizeOverride>, id: ScreenId): Option<ScreenSize> {
    if overrides == [] then None
    else if overrides[0].screenId == id then Some(overrides[0].size)
    else OverrideFor(overrides[1..], id)
  }

  function NodeFor(s: ScreenDescriptor, overrides: seq<SizeOverride>): ScreenNode {
    ScreenNode(s.screenId, s.deviceId, s.deviceName, s.name, s.logicalSize,
               OverrideFor(overrides, s.screenId), s.online, s.thisDevice)
  }

  function NodesFor(inv: ScreenInventory, overrides: seq<SizeOverride>): (ns: seq<ScreenNode>)
    ensures |ns| == |inv|
    ensures forall i | 0 <= i < |inv| :: ns[i] == NodeFor(inv[i], overrides)
  {
    seq(|inv|, i requires 0 <= i < |inv| => NodeFor(inv[i], overrides))
  }

  function Resolve(l: ScreenLayout, inv: ScreenInventory): Result<ScreenTopology, LayoutError> {
    if CheckLayout(l, inv).Some? then Failure(CheckLayout(l, inv).value)
    else Success(ScreenTopology(l.revision, NodesFor(inv, l.sizeOverrides), l.links))
  }

  function OverridesOf(screens: seq<ScreenNode>): seq<SizeOverride> {
    if screens == [] then []
    else if screens[0].sizeOverride.Some? then
      [SizeOverride(screens[0].screenId, screens[0].sizeOverride.value)] + OverridesOf(screens[1..])
    else OverridesOf(screens[1..])
  }

  // `ScreenLayout::from_topology`, and the layout half of splitting a stored topology.
  function FromTopology(t: ScreenTopology): ScreenLayout {
    DEFAULT_LAYOUT.(revision := t.revision, links := t.links, sizeOverrides := OverridesOf(t.screens))
  }

  // The inventory half of splitting a stored topology.
  function InventoryOf(t: ScreenTopology): (inv: ScreenInventory)
    ensures |inv| == |t.screens|
  {
    seq(|t.screens|, i requires 0 <= i < |t.screens| =>
      var s := t.screens[i];
      ScreenDescriptor(s.screenId, s.deviceId, s.deviceName, s.name, s.logicalSize, s.thisDevice, s.online,
          s.thisDevice))
  }
}
