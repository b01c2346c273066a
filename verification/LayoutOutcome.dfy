/** Which layout commands are accepted, what they leave alone, and how sizes reach the router. */
module LayoutOutcomes {
  import opened MachineInts
  import opened Wrappers
  import opened ScreenModel
  import opened Sequences
  import opened EdgeBarriers
  import opened TopologyRouting
  import opened RouterGeometry
  import opened RouterOutcomes
  import opened LayoutModel
  import opened LayoutProperties

  // ---------- Acceptance ----------

  predicate Listed(inv: ScreenInventory, id: ScreenId) {
    exists s :: s in inv && s.screenId == id
  }

  predicate Opposed(a: Edge, b: Edge) {
    (a, b) in {(Edge.Left, Edge.Right), (Edge.Right, Edge.Left), (Edge.Top, Edge.Bottom), (Edge.Bottom, Edge.Top)}
  }

  // The two edges may be joined: known, different screens, facing each other, and free or to be freed.
  predicate Joinable(l: ScreenLayout, inv: ScreenInventory, a: ScreenEdge, b: ScreenEdge, replace: bool) {
    && Listed(inv, a.screenId) && Listed(inv, b.screenId) && a.screenId != b.screenId && Opposed(a.edge, b.edge)
    && (replace || forall k | k in l.links :: k.from != a && k.to != a && k.from != b && k.to != b)
  }

  // The anchor's edge that a screen in this position is joined to, and that screen's own edge.
  function Sides(position: RelativePosition): (Edge, Edge) {
    match position
    case LeftOf => (Edge.Left, Edge.Right)
    case RightOf => (Edge.Right, Edge.Left)
    case Above => (Edge.Top, Edge.Bottom)
    case Below => (Edge.Bottom, Edge.Top)
  }

  predicate Acceptable(l: ScreenLayout, inv: ScreenInventory, c: LayoutCommand) {
    match c
    case Place(id, anchor, position, replace) =>
      Joinable(l, inv, ScreenEdge(anchor, Sides(position).0), ScreenEdge(id, Sides(position).1), replace)
    case Link(from, to, replace) => Joinable(l, inv, from, to, replace)
    case Unlink(edge) => Listed(inv, edge.screenId)
    case Unplace(id) => Listed(inv, id)
    case SetSizeOverride(id, _) => Listed(inv, id)
    case Replace(layout) => ValidLayout(layout, inv)
  }

  lemma ListedIsKnown(inv: ScreenInventory, id: ScreenId)
    ensures Listed(inv, id) <==> id in KnownIds(inv)
  {
    var ids := InventoryIds(inv);
    if s :| s in inv && s.screenId == id {
      var i :| 0 <= i < |inv| && inv[i] == s;
      assert ids[i] == id;
    }
    if id in ids {
      var i :| 0 <= i < |ids| && ids[i] == id;
      assert inv[i] in inv;
    }
  }

  lemma JoinedExact(l: ScreenLayout, inv: ScreenInventory, a: ScreenEdge, b: ScreenEdge, replace: bool)
    ensures Joined(l, inv, a, b, replace).Success? <==> Joinable(l, inv, a, b, replace)
  {
    ListedIsKnown(inv, a.screenId);
    ListedIsKnown(inv, b.screenId);
    NoOccupant(l.links, a, b);
    hide Listed, KnownIds;
  }

  /** Exactly which commands are accepted. */
  lemma AcceptedExactly(l: ScreenLayout, inv: ScreenInventory, c: LayoutCommand)
    ensures Apply(l, inv, c).Success? <==> ValidLayout(l, inv) && Acceptable(l, inv, c)
  {
    ApplyExact(l, inv, c);
    match c
    case Place(id, anchor, position, replace) => JoinedExact(l, inv, PlaceEnds(c).0, PlaceEnds(c).1, replace);
    case Link(from, to, replace) => JoinedExact(l, inv, from, to, replace);
    case Unlink(edge) => ListedIsKnown(inv, edge.screenId);
    case Unplace(id) => ListedIsKnown(inv, id);
    case SetSizeOverride(id, _) => ListedIsKnown(inv, id);
    case Replace(_) =>
    hide Apply, ValidLayout, Joined, Joinable, Listed, KnownIds;
  }

  // The first link with an end at one of the two edges has one at `e`, and at `a` rather than at `b`.
  predicate TakenFirst(links: seq<ScreenLink>, a: ScreenEdge, b: ScreenEdge, e: ScreenEdge) {
    exists i | 0 <= i < |links| ::
      && (links[i].from == e || links[i].to == e)
      && e == (if links[i].from == a || links[i].to == a then a else b)
      && forall j | 0 <= j < i :: links[j].from != a && links[j].to != a && links[j].from != b && links[j].to != b
  }

  /** Why two edges are not joined: the first screen that is unknown, else one and the same screen, else edges
      that do not face, else the edge taken by the first link in the way. */
  lemma RefusedFor(l: ScreenLayout, inv: ScreenInventory, a: ScreenEdge, b: ScreenEdge, replace: bool)
    requires ValidLayout(l, inv) && !Joinable(l, inv, a, b, replace)
    ensures var r := Apply(l, inv, Link(a, b, replace));
            && r.Failure?
            && if !Listed(inv, a.screenId) then r.error == UnknownScreen(a.screenId)
               else if !Listed(inv, b.screenId) then r.error == UnknownScreen(b.screenId)
               else if a.screenId == b.screenId then r.error == Invalid(LinkedToItself)
               else if !Opposed(a.edge, b.edge) then r.error == Invalid(NotFacing)
               else r.error.EdgeOccupied? && TakenFirst(l.links, a, b, r.error.edge)
  {
    ApplyExact(l, inv, Link(a, b, replace));
    JoinedExact(l, inv, a, b, replace);
    ListedIsKnown(inv, a.screenId);
    ListedIsKnown(inv, b.screenId);
    FirstOccupantIsFirst(l.links, a, b);
    hide Apply, ValidLayout, Listed, KnownIds, Joinable, TakenFirst;
  }

  lemma {:induction false} FirstOccupantIsFirst(links: seq<ScreenLink>, a: ScreenEdge, b: ScreenEdge)
    ensures var k := FirstOccupant(links, a, b);
            k.Some? ==> TakenFirst(links, a, b, if Touches(k.value, a) then a else b)
  {
    if links != [] {
      if Occupies(links[0], a, b) {
        assert links[0] == FirstOccupant(links, a, b).value;
      } else {
        FirstOccupantIsFirst(links[1..], a, b);
        var k := FirstOccupant(links, a, b);
        if k.Some? { TakenLater(links, a, b, if Touches(k.value, a) then a else b); }
      }
    }
  }

  lemma TakenLater(links: seq<ScreenLink>, a: ScreenEdge, b: ScreenEdge, e: ScreenEdge)
    requires links != [] && !Occupies(links[0], a, b) && TakenFirst(links[1..], a, b, e)
    ensures TakenFirst(links, a, b, e)
  {
    var rest := links[1..];
    var i :| 0 <= i < |rest| && (rest[i].from == e || rest[i].to == e)
        && e == (if rest[i].from == a || rest[i].to == a then a else b)
        && forall j | 0 <= j < i :: rest[j].from != a && rest[j].to != a && rest[j].from != b && rest[j].to != b;
    assert links[i + 1] == rest[i];
    assert forall j | 0 < j < i + 1 :: links[j] == rest[j - 1];
  }

  /** Placing a screen joins its near edge to the anchor's edge on that side, as linking the two would. */
  lemma PlaceIsLink(l: ScreenLayout, inv: ScreenInventory, id: ScreenId, anchor: ScreenId, position: RelativePosition,
                    replace: bool)
    ensures Apply(l, inv, Place(id, anchor, position, replace))
            == Apply(l, inv, Link(ScreenEdge(anchor, Sides(position).0), ScreenEdge(id, Sides(position).1), replace))
  {
    hide Joined, CheckLayout;
  }

  /** A command touches links or overrides, never both, and raises the revision by one. */
  lemma CommandKeepsRest(l: ScreenLayout, inv: ScreenInventory, c: LayoutCommand)
    requires Apply(l, inv, c).Success?
    ensures Apply(l, inv, c).value.revision == if l.revision < U64_MAX then l.revision + 1 else U64_MAX
    ensures !c.Replace? ==> Apply(l, inv, c).value.schemaVersion == l.schemaVersion
    ensures c.SetSizeOverride? ==> Apply(l, inv, c).value.links == l.links
    ensures !c.SetSizeOverride? && !c.Replace? ==> Apply(l, inv, c).value.sizeOverrides == l.sizeOverrides
    ensures c.Replace? ==> Apply(l, inv, c).value == c.layout.(revision := Apply(l, inv, c).value.revision)
  {
    hide CheckLayout, KnownIds;
  }

  // ---------- Sizes ----------

  /** Each screen of the inventory is found in the resolved topology under the size set for it, or else its own,
      and otherwise as the inventory describes it. */
  lemma ResolvedScreen(l: ScreenLayout, inv: ScreenInventory, s: ScreenDescriptor)
    requires ValidLayout(l, inv) && s in inv
    ensures Resolve(l, inv).Success? && Knows(Resolve(l, inv).value, s.screenId)
    ensures var t := Resolve(l, inv).value;
            var n := FindScreen(t.screens, s.screenId).value;
            && (forall z :: SizeOverride(s.screenId, z) in l.sizeOverrides ==> SizeOf(t, s.screenId) == z)
            && ((forall o | o in l.sizeOverrides :: o.screenId != s.screenId)
                 ==> SizeOf(t, s.screenId) == s.logicalSize)
            && n.deviceId == s.deviceId && n.deviceName == s.deviceName && n.name == s.name
            && n.online == s.online && n.thisDevice == s.thisDevice
  {
    ResolvedIsValid(l, inv);
    var t := Resolve(l, inv).value;
    var i :| 0 <= i < |inv| && inv[i] == s;
    FindsItself(t.screens, i);
    assert t.screens[i] == NodeFor(s, l.sizeOverrides);
    forall z | SizeOverride(s.screenId, z) in l.sizeOverrides ensures SizeOf(t, s.screenId) == z {
      OverrideForExact(l.sizeOverrides, KnownIds(inv), s.screenId, z);
    }
    if OverrideFor(l.sizeOverrides, s.screenId).Some? {
      OverrideForExact(l.sizeOverrides, KnownIds(inv), s.screenId, OverrideFor(l.sizeOverrides, s.screenId).value);
    }
    hide CheckLayout, ValidLinks, ValidInventory, KnownIds, ValidTopology, NodesFor;
  }

  /** After a size has been set, or taken back, the screen has that size, or its own. */
  lemma OverrideDecidesSize(l: ScreenLayout, inv: ScreenInventory, s: ScreenDescriptor, size: Option<ScreenSize>)
    requires s in inv && Apply(l, inv, SetSizeOverride(s.screenId, size)).Success?
    ensures var t := Resolve(Apply(l, inv, SetSizeOverride(s.screenId, size)).value, inv);
            && t.Success? && Knows(t.value, s.screenId)
            && SizeOf(t.value, s.screenId) == if size.Some? then size.value else s.logicalSize
  {
    var c := SetSizeOverride(s.screenId, size);
    ApplyExact(l, inv, c);
    var l' := Apply(l, inv, c).value;
    ResolvedScreen(l', inv, s);
    RetainMembers((o: SizeOverride) => o.screenId != s.screenId, l.sizeOverrides);
    hide Apply, ValidLayout, Resolve, KnownIds;
    if size.Some? {
      assert SizeOverride(s.screenId, size.value) in l'.sizeOverrides;
    }
  }

  /** Once a size has been set for a screen, routing on that screen goes by it: a motion that stays ends at the
      nearest pixel within that size, and the cursor leaves exactly when, standing on a border of that size, it
      is pushed out of it through a link and the barrier opens. */
  lemma OverrideGovernsRouting(l: ScreenLayout, inv: ScreenInventory, s: ScreenDescriptor, z: ScreenSize,
                               r: RouterState, dx: I32, dy: I32, now: Option<U64>)
    requires s in inv && Apply(l, inv, SetSizeOverride(s.screenId, Some(z))).Success?
    requires Resolve(Apply(l, inv, SetSizeOverride(s.screenId, Some(z))).value, inv) == Success(r.topology)
    requires r.active == s.screenId
    ensures r.Placed()
    ensures var (route, next) := r.Route(dx, dy, now);
            && (route.Stay? ==>
                  next.active == s.screenId
                  && next.x == Nearest(r.x + dx, z.width) && next.y == Nearest(r.y + dy, z.height))
            && (route.Cross? <==> exists e :: PushedOut(e, r.x, r.y, z, dx, dy) && Opens(r, e, dx, dy, now))
  {
    OverrideDecidesSize(l, inv, s, Some(z));
    StayExact(r, dx, dy, now);
    CrossExact(r, dx, dy, now);
    hide Apply, Resolve, RouterState.Route, PushedOut, Opens;
  }
}
