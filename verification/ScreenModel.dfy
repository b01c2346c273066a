/** Screens, their edges and the links between them, and the validity of a resolved topology. */
module ScreenModel {
  import opened MachineInts
  import opened Wrappers

  type ScreenId = string
  type DeviceId = string

  datatype Edge = Top | Right | Bottom | Left

  datatype ScreenEdge = ScreenEdge(screenId: ScreenId, edge: Edge)

  datatype Dimensions = Dimensions(width: I32, height: I32)

  // A screen size can only be constructed with two positive dimensions.
  type ScreenSize = d: Dimensions | d.width > 0 && d.height > 0 witness Dimensions(1, 1)

  datatype ScreenNode = ScreenNode(
    screenId: ScreenId,
    deviceId: DeviceId,
    deviceName: string,
    name: string,
    logicalSize: ScreenSize,
    sizeOverride: Option<ScreenSize>,
    online: bool,
    thisDevice: bool)
  {
    function EffectiveSize(): ScreenSize {
      if sizeOverride.Some? then sizeOverride.value else logicalSize
    }
  }

  datatype ScreenLink = ScreenLink(from: ScreenEdge, to: ScreenEdge)

  datatype ScreenTopology = ScreenTopology(
    revision: U64,
    screens: seq<ScreenNode>,
    links: seq<ScreenLink>)

  function Opposite(edge: Edge): Edge {
    match edge
    case Top => Bottom
    case Right => Left
    case Bottom => Top
    case Left => Right
  }

  // The Unicode White_Space property, which decides what trimming removes.
  predicate IsWhitespace(c: char) {
    var n := c as int;
    || 0x9 <= n <= 0xD || n == 0x20 || n == 0x85 || n == 0xA0 || n == 0x1680
    || 0x2000 <= n <= 0x200A || n == 0x2028 || n == 0x2029 || n == 0x202F
    || n == 0x205F || n == 0x3000
  }

  predicate Blank(s: string) {
    forall i | 0 <= i < |s| :: IsWhitespace(s[i])
  }

  function FindScreen(screens: seq<ScreenNode>, id: ScreenId): (r: Option<ScreenNode>)
    ensures r.Some? ==> r.value.screenId == id
  {
    if screens == [] then None
    else if screens[0].screenId == id then Some(screens[0])
    else FindScreen(screens[1..], id)
  }

  lemma FindScreenExact(screens: seq<ScreenNode>, id: ScreenId)
    ensures FindScreen(screens, id).Some? ==> FindScreen(screens, id).value in screens
    ensures FindScreen(screens, id).None? <==> forall s | s in screens :: s.screenId != id
  {
  }

  predicate IsOnline(t: ScreenTopology, id: ScreenId) {
    var found := FindScreen(t.screens, id);
    found.Some? && found.value.online
  }

  predicate Knows(t: ScreenTopology, id: ScreenId) {
    FindScreen(t.screens, id).Some?
  }

  // Screen IDs are formed as the device ID, a slash and an ID within the device.
  function OwnerOf(id: ScreenId): DeviceId {
    if id == "" || id[0] == '/' then "" else [id[0]] + OwnerOf(id[1..])
  }

  predicate NamedByOwner(t: ScreenTopology) {
    forall i | 0 <= i < |t.screens| :: OwnerOf(t.screens[i].screenId) == t.screens[i].deviceId
  }

  function SizeOf(t: ScreenTopology, id: ScreenId): ScreenSize
    requires Knows(t, id)
  {
    FindScreen(t.screens, id).value.EffectiveSize()
  }

  predicate Touches(link: ScreenLink, e: ScreenEdge) {
    link.from == e || link.to == e
  }

  predicate TouchesScreen(link: ScreenLink, id: ScreenId) {
    link.from.screenId == id || link.to.screenId == id
  }

  // Two links compete for a screen edge.
  predicate Clash(a: ScreenLink, b: ScreenLink) {
    Touches(a, b.from) || Touches(a, b.to)
  }

  // ---------- Declarative validity ----------

  predicate DistinctIds(ids: seq<ScreenId>) {
    forall i, j | 0 <= i < j < |ids| :: ids[i] != ids[j]
  }

  predicate WellFormedLink(link: ScreenLink, known: set<ScreenId>) {
    && link.from.screenId in known
    && link.to.screenId in known
    && Opposite(link.from.edge) == link.to.edge
  }

  // Every endpoint belongs to a known screen, links face each other and no edge is used twice.
  predicate ValidLinks(links: seq<ScreenLink>, known: set<ScreenId>) {
    && (forall i | 0 <= i < |links| :: WellFormedLink(links[i], known))
    && (forall i, j | 0 <= i < j < |links| :: !Clash(links[i], links[j]))
  }

  function NodeIds(screens: seq<ScreenNode>): (ids: seq<ScreenId>)
    ensures |ids| == |screens|
    ensures forall i | 0 <= i < |ids| :: ids[i] == screens[i].screenId
  {
    seq(|screens|, i requires 0 <= i < |screens| => screens[i].screenId)
  }

  predicate ValidIds(ids: seq<ScreenId>) {
    && (forall i | 0 <= i < |ids| :: !Blank(ids[i]))
    && DistinctIds(ids)
  }

  function Elements<T>(s: seq<T>): set<T> {
    set x | x in s
  }

  predicate ValidTopology(t: ScreenTopology) {
    && ValidIds(NodeIds(t.screens))
    && ValidLinks(t.links, Elements(NodeIds(t.screens)))
  }

  // ---------- The checks the program performs ----------

  datatype TopologyFault =
    | EmptyScreenId
    | DuplicateScreenId(id: ScreenId)
    | SelfLinkedEdge
    | UnknownEndpoint
    | EdgeLinkedTwice
    | EdgesNotFacing

  function CheckIds(ids: seq<ScreenId>, seen: set<ScreenId>): Option<TopologyFault> {
    if ids == [] then None
    else if Blank(ids[0]) then Some(EmptyScreenId)
    else if ids[0] in seen then Some(DuplicateScreenId(ids[0]))
    else CheckIds(ids[1..], seen + {ids[0]})
  }

  function CheckLinks(links: seq<ScreenLink>, known: set<ScreenId>, occupied: set<ScreenEdge>)
    : Option<TopologyFault>
  {
    if links == [] then None
    else
      var link := links[0];
      if link.from == link.to then Some(SelfLinkedEdge)
      else if link.from.screenId !in known || link.to.screenId !in known then Some(UnknownEndpoint)
      else if link.from in occupied || link.to in occupied then Some(EdgeLinkedTwice)
      else if Opposite(link.from.edge) != link.to.edge then Some(EdgesNotFacing)
      else CheckLinks(links[1..], known, occupied + {link.from, link.to})
  }

  function CheckTopology(t: ScreenTopology): Option<TopologyFault> {
    var ids := CheckIds(NodeIds(t.screens), {});
    if ids.Some? then ids else CheckLinks(t.links, Elements(NodeIds(t.screens)), {})
  }

  // What the scan establishes about the part of the list it has still to visit.
  predicate FreeLinks(links: seq<ScreenLink>, known: set<ScreenId>, occupied: set<ScreenEdge>) {
    && ValidLinks(links, known)
    && (forall i | 0 <= i < |links| :: links[i].from !in occupied && links[i].to !in occupied)
  }

  lemma FreeLinksUnfold(links: seq<ScreenLink>, known: set<ScreenId>, occupied: set<ScreenEdge>)
    requires links != []
    ensures FreeLinks(links, known, occupied) <==>
              && WellFormedLink(links[0], known)
              && links[0].from !in occupied && links[0].to !in occupied
              && FreeLinks(links[1..], known, occupied + {links[0].from, links[0].to})
  {
  }

  lemma {:induction false} CheckLinksExact(links: seq<ScreenLink>, known: set<ScreenId>, occupied: set<ScreenEdge>)
    ensures CheckLinks(links, known, occupied).None? <==> FreeLinks(links, known, occupied)
  {
    if links != [] {
      FreeLinksUnfold(links, known, occupied);
      CheckLinksExact(links[1..], known, occupied + {links[0].from, links[0].to});
    }
  }

  predicate FreshIds(ids: seq<ScreenId>, seen: set<ScreenId>) {
    ValidIds(ids) && forall i | 0 <= i < |ids| :: ids[i] !in seen
  }

  lemma {:induction false} CheckIdsExact(ids: seq<ScreenId>, seen: set<ScreenId>)
    ensures CheckIds(ids, seen).None? <==> FreshIds(ids, seen)
  {
    if ids != [] {
      var rest, grown := ids[1..], seen + {ids[0]};
      CheckIdsExact(rest, grown);
      if FreshIds(ids, seen) {
        forall i | 0 <= i < |rest| ensures rest[i] !in grown && !Blank(rest[i]) {
          assert rest[i] == ids[i + 1];
        }
        assert DistinctIds(rest) by {
          forall i, j | 0 <= i < j < |rest| ensures rest[i] != rest[j] {
            assert ids[i + 1] != ids[j + 1];
          }
        }
      }
      if !Blank(ids[0]) && ids[0] !in seen && FreshIds(rest, grown) {
        forall i | 0 <= i < |ids| ensures ids[i] !in seen && !Blank(ids[i]) {
          if i > 0 { assert ids[i] == rest[i - 1]; }
        }
        forall i, j | 0 <= i < j < |ids| ensures ids[i] != ids[j] {
          assert ids[j] == rest[j - 1];
          if i > 0 { assert ids[i] == rest[i - 1]; }
        }
      }
    }
  }

  // The scan accepts exactly the declaratively valid topologies.
  lemma CheckTopologyExact(t: ScreenTopology)
    ensures CheckTopology(t).None? <==> ValidTopology(t)
  {
    CheckIdsExact(NodeIds(t.screens), {});
    CheckLinksExact(t.links, Elements(NodeIds(t.screens)), {});
  }

  /** `ScreenTopology::validate`: one pass over the screens, then one over the links. */
  method ValidateTopology(t: ScreenTopology) returns (fault: Option<TopologyFault>)
    ensures fault == CheckTopology(t)
    ensures fault.None? <==> ValidTopology(t)
  {
    CheckTopologyExact(t);
    var names := NodeIds(t.screens);
    var ids: set<ScreenId> := {};
    for i := 0 to |t.screens|
      invariant ids == Elements(names[..i])
      invariant CheckIds(names, {}) == CheckIds(names[i..], ids)
    {
      var id := t.screens[i].screenId;
      if Blank(id) {
        return Some(EmptyScreenId);
      }
      if id in ids {
        return Some(DuplicateScreenId(id));
      }
      assert names[i..][0] == id && names[i..][1..] == names[i + 1..];
      assert names[..i + 1] == names[..i] + [id];
      ids := ids + {id};
    }
    assert names[..|t.screens|] == names;
    var occupied: set<ScreenEdge> := {};
    for i := 0 to |t.links|
      invariant CheckLinks(t.links, ids, {}) == CheckLinks(t.links[i..], ids, occupied)
    {
      var link := t.links[i];
      assert t.links[i..][0] == link && t.links[i..][1..] == t.links[i + 1..];
      if link.from == link.to {
        return Some(SelfLinkedEdge);
      }
      if link.from.screenId !in ids || link.to.screenId !in ids {
        return Some(UnknownEndpoint);
      }
      if link.from in occupied || link.to in occupied {
        return Some(EdgeLinkedTwice);
      }
      occupied := occupied + {link.from, link.to};
      if Opposite(link.from.edge) != link.to.edge {
        return Some(EdgesNotFacing);
      }
    }
    return None;
  }

  // ---------- Facts about valid topologies ----------

  lemma KnownIffListed(t: ScreenTopology, id: ScreenId)
    ensures Knows(t, id) <==> id in Elements(NodeIds(t.screens))
  {
    FindScreenExact(t.screens, id);
    var ids := NodeIds(t.screens);
    if Knows(t, id) {
      var i :| 0 <= i < |t.screens| && t.screens[i] == FindScreen(t.screens, id).value;
      assert ids[i] == id;
    }
    if id in ids {
      var i :| 0 <= i < |ids| && ids[i] == id;
      assert t.screens[i].screenId == id;
    }
  }

  // With distinct IDs, looking a screen up by its own ID finds it.
  lemma {:induction false} FindsItself(screens: seq<ScreenNode>, i: nat)
    requires DistinctIds(NodeIds(screens)) && i < |screens|
    ensures FindScreen(screens, screens[i].screenId) == Some(screens[i])
  {
    var ids := NodeIds(screens);
    if i > 0 {
      assert ids[0] != ids[i];
      forall j, k | 0 <= j < k < |screens[1..]| ensures NodeIds(screens[1..])[j] != NodeIds(screens[1..])[k] {
        assert ids[j + 1] != ids[k + 1];
      }
      FindsItself(screens[1..], i - 1);
    }
  }
}
