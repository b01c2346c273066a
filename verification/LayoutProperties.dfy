/** What layout commands preserve and mean, and how layouts and topologies convert into each other. */
module LayoutProperties {
  import opened MachineInts
  import opened Wrappers
  import opened ScreenModel
  import opened Sequences
  import opened LayoutModel

  // ---------- Validity under prepending, appending and retaining ----------

  // Prepending a link to valid links, stated by membership.
  lemma ValidLinksCons(link: ScreenLink, links: seq<ScreenLink>, known: set<ScreenId>)
    ensures ValidLinks([link] + links, known) <==>
              && WellFormedLink(link, known)
              && ValidLinks(links, known)
              && forall k | k in links :: !Clash(link, k)
  {
    var all := [link] + links;
    assert all[0] == link && forall i | 1 <= i < |all| :: all[i] == links[i - 1];
    assert forall i | 0 <= i < |links| :: links[i] == all[i + 1];
    if ValidLinks(all, known) {
      forall k | k in links ensures !Clash(link, k) {
        var i :| 0 <= i < |links| && links[i] == k;
        assert !Clash(all[0], all[i + 1]);
      }
      forall i, j | 0 <= i < j < |links| ensures !Clash(links[i], links[j]) {
        assert !Clash(all[i + 1], all[j + 1]);
      }
    }
  }

  lemma ValidLinksSnoc(links: seq<ScreenLink>, link: ScreenLink, known: set<ScreenId>)
    requires ValidLinks(links, known) && WellFormedLink(link, known)
    requires forall k | k in links :: !Clash(k, link)
    ensures ValidLinks(links + [link], known)
  {
  }

  lemma {:induction false} RetainValidLinks(keep: ScreenLink -> bool, links: seq<ScreenLink>, known: set<ScreenId>)
    requires ValidLinks(links, known)
    ensures ValidLinks(Retain(keep, links), known)
  {
    if links != [] {
      assert links == [links[0]] + links[1..];
      ValidLinksCons(links[0], links[1..], known);
      RetainValidLinks(keep, links[1..], known);
      RetainMembers(keep, links[1..]);
      ValidLinksCons(links[0], Retain(keep, links[1..]), known);
    }
  }

  lemma ValidOverridesCons(o: SizeOverride, os: seq<SizeOverride>, known: set<ScreenId>)
    ensures ValidOverrides([o] + os, known) <==>
              o.screenId in known && ValidOverrides(os, known) && forall k | k in os :: k.screenId != o.screenId
  {
    var all := [o] + os;
    assert all[0] == o && forall i | 1 <= i < |all| :: all[i] == os[i - 1];
    assert forall i | 0 <= i < |os| :: os[i] == all[i + 1];
    if ValidOverrides(all, known) {
      forall k | k in os ensures k.screenId != o.screenId {
        var i :| 0 <= i < |os| && os[i] == k;
        assert all[0].screenId != all[i + 1].screenId;
      }
    }
  }

  lemma ValidOverridesSnoc(os: seq<SizeOverride>, o: SizeOverride, known: set<ScreenId>)
    requires ValidOverrides(os, known) && o.screenId in known && forall k | k in os :: k.screenId != o.screenId
    ensures ValidOverrides(os + [o], known)
  {
  }

  lemma {:induction false} RetainValidOverrides(keep: SizeOverride -> bool, os: seq<SizeOverride>, known: set<ScreenId>)
    requires ValidOverrides(os, known)
    ensures ValidOverrides(Retain(keep, os), known)
  {
    if os != [] {
      assert os == [os[0]] + os[1..];
      ValidOverridesCons(os[0], os[1..], known);
      RetainValidOverrides(keep, os[1..], known);
      RetainMembers(keep, os[1..]);
      ValidOverridesCons(os[0], Retain(keep, os[1..]), known);
    }
  }

  // ---------- Commands are closed over valid layouts ----------

  lemma JoinedStaysValid(l: ScreenLayout, inv: ScreenInventory, from: ScreenEdge, to: ScreenEdge, replace: bool)
    requires ValidLayout(l, inv) && Joined(l, inv, from, to, replace).Success?
    ensures ValidLayout(Joined(l, inv, from, to, replace).value, inv)
  {
    var keep := (k: ScreenLink) => !Occupies(k, from, to);
    RetainValidLinks(keep, l.links, KnownIds(inv));
    RetainMembers(keep, l.links);
    ValidLinksSnoc(Retain(keep, l.links), ScreenLink(from, to), KnownIds(inv));
  }

  lemma RetainedLinksStayValid(l: ScreenLayout, inv: ScreenInventory, keep: ScreenLink -> bool)
    requires ValidLayout(l, inv)
    ensures ValidLayout(l.(links := Retain(keep, l.links)), inv)
  {
    RetainValidLinks(keep, l.links, KnownIds(inv));
  }

  lemma OverrideStaysValid(l: ScreenLayout, inv: ScreenInventory, id: ScreenId, size: Option<ScreenSize>)
    requires ValidLayout(l, inv) && id in KnownIds(inv)
    ensures ValidLayout(Edit(l, inv, SetSizeOverride(id, size)).value, inv)
  {
    hide ValidInventory, KnownIds;
    var keep := (o: SizeOverride) => o.screenId != id;
    RetainValidOverrides(keep, l.sizeOverrides, KnownIds(inv));
    RetainMembers(keep, l.sizeOverrides);
    if size.Some? {
      ValidOverridesSnoc(Retain(keep, l.sizeOverrides), SizeOverride(id, size.value), KnownIds(inv));
    }
  }

  lemma EditStaysValid(l: ScreenLayout, inv: ScreenInventory, c: LayoutCommand)
    requires ValidLayout(l, inv) && !c.Replace? && Edit(l, inv, c).Success?
    ensures ValidLayout(Edit(l, inv, c).value, inv)
  {
    hide ValidLayout, KnownIds, Joined;
    match c
    case Place(_, _, _, replace) => JoinedStaysValid(l, inv, PlaceEnds(c).0, PlaceEnds(c).1, replace);
    case Link(from, to, replace) => JoinedStaysValid(l, inv, from, to, replace);
    case Unlink(edge) => RetainedLinksStayValid(l, inv, (k: ScreenLink) => !Touches(k, edge));
    case Unplace(id) => RetainedLinksStayValid(l, inv, (k: ScreenLink) => !TouchesScreen(k, id));
    case SetSizeOverride(id, size) => OverrideStaysValid(l, inv, id, size);
  }

  /** On a valid layout the final re-validation of a command other than Replace never fails; Replace
      succeeds exactly for a layout that is itself valid. Every success is valid and one revision up. */
  lemma ApplyExact(l: ScreenLayout, inv: ScreenInventory, c: LayoutCommand)
    ensures Apply(l, inv, c).Success? <==>
              && ValidLayout(l, inv)
              && (if c.Replace? then ValidLayout(c.layout, inv) else Edit(l, inv, c).Success?)
    ensures Apply(l, inv, c).Success? ==>
              && ValidLayout(Apply(l, inv, c).value, inv)
              && Apply(l, inv, c).value == Edit(l, inv, c).value.(revision := SatAddU64(l.revision, 1))
    ensures ValidLayout(l, inv) && !c.Replace? && Apply(l, inv, c).Failure? ==> Apply(l, inv, c) == Edit(l, inv, c)
  {
    CheckLayoutExact(l, inv);
    if ValidLayout(l, inv) && Edit(l, inv, c).Success? {
      var next := Edit(l, inv, c).value.(revision := SatAddU64(l.revision, 1));
      CheckLayoutExact(next, inv);
      if !c.Replace? {
        EditStaysValid(l, inv, c);
      }
    }
    hide Edit, ValidInventory, ValidLinks, ValidOverrides, CheckLayout;
  }

  // ---------- What linking and unlinking do to the pairing of edges ----------

  // Edges `e` and `p` are the two ends of one link.
  predicate Pairs(links: seq<ScreenLink>, e: ScreenEdge, p: ScreenEdge) {
    ScreenLink(e, p) in links || ScreenLink(p, e) in links
  }

  /** A successful link joins exactly the two edges it names, frees the edges they were joined to and
      leaves every other pair alone. */
  lemma LinkPairs(l: ScreenLayout, inv: ScreenInventory, from: ScreenEdge, to: ScreenEdge, replace: bool,
                  e: ScreenEdge, p: ScreenEdge)
    requires Edit(l, inv, Link(from, to, replace)).Success?
    ensures Pairs(Edit(l, inv, Link(from, to, replace)).value.links, e, p) <==>
              || (e == from && p == to) || (e == to && p == from)
              || (Pairs(l.links, e, p) && e != from && e != to && p != from && p != to)
  {
    RetainMembers((k: ScreenLink) => !Occupies(k, from, to), l.links);
  }

  lemma UnlinkPairs(l: ScreenLayout, inv: ScreenInventory, edge: ScreenEdge, e: ScreenEdge, p: ScreenEdge)
    requires Edit(l, inv, Unlink(edge)).Success?
    ensures Pairs(Edit(l, inv, Unlink(edge)).value.links, e, p) <==> Pairs(l.links, e, p) && e != edge && p != edge
  {
    RetainMembers((k: ScreenLink) => !Touches(k, edge), l.links);
  }

  lemma UnplacePairs(l: ScreenLayout, inv: ScreenInventory, id: ScreenId, e: ScreenEdge, p: ScreenEdge)
    requires Edit(l, inv, Unplace(id)).Success?
    ensures Pairs(Edit(l, inv, Unplace(id)).value.links, e, p) <==>
              Pairs(l.links, e, p) && e.screenId != id && p.screenId != id
  {
    RetainMembers((k: ScreenLink) => !TouchesScreen(k, id), l.links);
  }

  /** An override command decides the override of its own screen and of no other. */
  lemma OverrideEffect(l: ScreenLayout, inv: ScreenInventory, id: ScreenId, size: Option<ScreenSize>, other: ScreenId)
    requires Edit(l, inv, SetSizeOverride(id, size)).Success?
    ensures OverrideFor(Edit(l, inv, SetSizeOverride(id, size)).value.sizeOverrides, other)
            == if other == id then size else OverrideFor(l.sizeOverrides, other)
  {
    var kept := Retain((o: SizeOverride) => o.screenId != id, l.sizeOverrides);
    OverridesWithout(l.sizeOverrides, id, other);
    if size.Some? {
      OverrideAppended(kept, SizeOverride(id, size.value), other);
    }
  }

  lemma {:induction false} OverridesWithout(os: seq<SizeOverride>, id: ScreenId, other: ScreenId)
    ensures OverrideFor(Retain((o: SizeOverride) => o.screenId != id, os), other)
            == if other == id then None else OverrideFor(os, other)
  {
    if os != [] {
      OverridesWithout(os[1..], id, other);
    }
  }

  lemma {:induction false} OverrideAppended(os: seq<SizeOverride>, o: SizeOverride, other: ScreenId)
    ensures OverrideFor(os + [o], other)
            == if OverrideFor(os, other).Some? then OverrideFor(os, other)
               else if o.screenId == other then Some(o.size) else None
  {
    if os != [] {
      assert (os + [o])[1..] == os[1..] + [o];
      OverrideAppended(os[1..], o, other);
    }
  }

  lemma {:induction false} NoOccupant(links: seq<ScreenLink>, from: ScreenEdge, to: ScreenEdge)
    ensures FirstOccupant(links, from, to).None? <==> forall k | k in links :: !Occupies(k, from, to)
  {
    if links != [] {
      NoOccupant(links[1..], from, to);
      assert links == [links[0]] + links[1..];
    }
  }

  /** Linking two free edges and unlinking either end gives back the original list of links. */
  lemma LinkThenUnlink(l: ScreenLayout, inv: ScreenInventory, from: ScreenEdge, to: ScreenEdge, replace: bool,
                       end: ScreenEdge)
    requires ValidLayout(l, inv) && Apply(l, inv, Link(from, to, replace)).Success?
    requires FirstOccupant(l.links, from, to).None?
    requires end == from || end == to
    ensures var linked := Apply(l, inv, Link(from, to, replace)).value;
            var restored := Apply(linked, inv, Unlink(end));
            restored.Success? && restored.value.links == l.links && restored.value.sizeOverrides == l.sizeOverrides
  {
    var linked := Apply(l, inv, Link(from, to, replace)).value;
    ApplyExact(l, inv, Link(from, to, replace));
    ApplyExact(linked, inv, Unlink(end));
    NoOccupant(l.links, from, to);
    RetainAll((k: ScreenLink) => !Occupies(k, from, to), l.links);
    var keep := (k: ScreenLink) => !Touches(k, end);
    RetainAppend(keep, l.links, ScreenLink(from, to));
    RetainAll(keep, l.links);
    hide Apply, ValidLayout;
  }

  // ---------- Placement availability ----------

  // The screen at the other end of a link at `e`.
  function Occupant(link: ScreenLink, e: ScreenEdge): Option<ScreenId> {
    if link.from == e then Some(link.to.screenId)
    else if link.to == e then Some(link.from.screenId)
    else None
  }

  function Note(occupied: seq<ScreenId>, occupant: Option<ScreenId>): seq<ScreenId> {
    if occupant.Some? && occupant.value !in occupied then occupied + [occupant.value] else occupied
  }

  // The screens occupying either edge, each once, in the order of the links.
  function OccupiedBy(links: seq<ScreenLink>, anchor: ScreenEdge, placed: ScreenEdge): seq<ScreenId> {
    if links == [] then []
    else
      var link := links[|links| - 1];
      Note(Note(OccupiedBy(links[..|links| - 1], anchor, placed), Occupant(link, anchor)), Occupant(link, placed))
  }

  datatype Availability = Availability(position: RelativePosition, occupiedBy: seq<ScreenId>)

  datatype AvailabilityFault = SameScreen | NotInTopology(id: ScreenId)

  const POSITIONS: seq<RelativePosition> := [LeftOf, RightOf, Above, Below]

  /** `ScreenTopology::placement_availability`. */
  method PlacementAvailability(t: ScreenTopology, anchorId: ScreenId, screenId: ScreenId)
    returns (r: Result<seq<Availability>, AvailabilityFault>)
    ensures r.Success? <==> anchorId != screenId && Knows(t, anchorId) && Knows(t, screenId)
    ensures r.Success? ==>
              && |r.value| == 4
              && forall i | 0 <= i < 4 ::
                   var ends := PlaceEnds(Place(screenId, anchorId, POSITIONS[i], false));
                   r.value[i] == Availability(POSITIONS[i], OccupiedBy(t.links, ends.0, ends.1))
    ensures r.Failure? ==> r.error == if anchorId == screenId then SameScreen
                                      else NotInTopology(if Knows(t, anchorId) then screenId else anchorId)
  {
    if anchorId == screenId {
      return Failure(SameScreen);
    }
    if !Knows(t, anchorId) {
      return Failure(NotInTopology(anchorId));
    }
    if !Knows(t, screenId) {
      return Failure(NotInTopology(screenId));
    }
    var result: seq<Availability> := [];
    for p := 0 to 4
      invariant |result| == p
      invariant forall i | 0 <= i < p ::
                  var ends := PlaceEnds(Place(screenId, anchorId, POSITIONS[i], false));
                  result[i] == Availability(POSITIONS[i], OccupiedBy(t.links, ends.0, ends.1))
    {
      var (anchor, placed) := PlaceEnds(Place(screenId, anchorId, POSITIONS[p], false));
      var occupiedBy := CollectOccupants(t.links, anchor, placed);
      result := result + [Availability(POSITIONS[p], occupiedBy)];
    }
    return Success(result);
  }

  // The inner loop over the links.
  method CollectOccupants(links: seq<ScreenLink>, anchor: ScreenEdge,
                          placed: ScreenEdge) returns (occupiedBy: seq<ScreenId>)
    ensures occupiedBy == OccupiedBy(links, anchor, placed)
  {
    occupiedBy := [];
    for k := 0 to |links|
      invariant occupiedBy == OccupiedBy(links[..k], anchor, placed)
    {
      assert links[..k + 1][..k] == links[..k];
      occupiedBy := Note(occupiedBy, Occupant(links[k], anchor));
      occupiedBy := Note(occupiedBy, Occupant(links[k], placed));
    }
    assert links[..|links|] == links;
  }

  lemma NoteExact(occupied: seq<ScreenId>, occupant: Option<ScreenId>)
    requires DistinctIds(occupied)
    ensures DistinctIds(Note(occupied, occupant))
    ensures forall id :: id in Note(occupied, occupant) <==> id in occupied || occupant == Some(id)
  {
  }

  // One end of the link is this edge and the other is on this screen.
  predicate EndsAt(link: ScreenLink, e: ScreenEdge, id: ScreenId) {
    (link.from == e && link.to.screenId == id) || (link.to == e && link.from.screenId == id)
  }

  // A link at one of the two edges leads to this screen.
  predicate LinkedAt(links: seq<ScreenLink>, anchor: ScreenEdge, placed: ScreenEdge, id: ScreenId) {
    exists k :: k in links && (EndsAt(k, anchor, id) || EndsAt(k, placed, id))
  }

  lemma LinkedAtSnoc(links: seq<ScreenLink>, last: ScreenLink, anchor: ScreenEdge, placed: ScreenEdge, id: ScreenId)
    ensures LinkedAt(links + [last], anchor, placed, id) <==>
              LinkedAt(links, anchor, placed, id) || Occupant(last, anchor) == Some(id)
                  || Occupant(last, placed) == Some(id)
  {
    assert Occupant(last, anchor) == Some(id) <==> EndsAt(last, anchor, id);
    assert Occupant(last, placed) == Some(id) <==> EndsAt(last, placed, id);
    hide Occupant, EndsAt;
    assert forall k :: k in links + [last] <==> k in links || k == last;
  }

  // The report names exactly the screens linked to one of the two edges, none of them twice.
  lemma {:induction false} OccupiedByExact(links: seq<ScreenLink>, anchor: ScreenEdge, placed: ScreenEdge)
    ensures DistinctIds(OccupiedBy(links, anchor, placed))
    ensures forall id :: id in OccupiedBy(links, anchor, placed) <==> LinkedAt(links, anchor, placed, id)
  {
    if links != [] {
      hide Occupant, Note, LinkedAt, DistinctIds;
      var before, last := links[..|links| - 1], links[|links| - 1];
      OccupiedByExact(before, anchor, placed);
      assert links == before + [last];
      NoteExact(OccupiedBy(before, anchor, placed), Occupant(last, anchor));
      NoteExact(Note(OccupiedBy(before, anchor, placed), Occupant(last, anchor)), Occupant(last, placed));
      forall id { LinkedAtSnoc(before, last, anchor, placed, id); }
    }
  }

  /** A position is reported unoccupied if and only if placing the screen there without replacing
      succeeds. */
  lemma AvailabilityAgreesWithPlace(l: ScreenLayout, inv: ScreenInventory, anchorId: ScreenId, screenId: ScreenId,
                                    position: RelativePosition)
    requires ValidLayout(l, inv)
    requires anchorId != screenId && anchorId in KnownIds(inv) && screenId in KnownIds(inv)
    ensures var c := Place(screenId, anchorId, position, false);
            OccupiedBy(l.links, PlaceEnds(c).0, PlaceEnds(c).1) == [] <==> Apply(l, inv, c).Success?
  {
    var c := Place(screenId, anchorId, position, false);
    var (anchor, placed) := PlaceEnds(c);
    ApplyExact(l, inv, c);
    NoOccupant(l.links, anchor, placed);
    NothingOccupied(l.links, anchor, placed);
    hide Apply, ValidLayout, Occupies, KnownIds;
  }

  lemma {:induction false} NothingOccupied(links: seq<ScreenLink>, anchor: ScreenEdge, placed: ScreenEdge)
    ensures OccupiedBy(links, anchor, placed) == [] <==> forall k | k in links :: !Occupies(k, anchor, placed)
  {
    if links != [] {
      var before, last := links[..|links| - 1], links[|links| - 1];
      NothingOccupied(before, anchor, placed);
      assert links == before + [last] && last in links;
      assert forall k :: k in links <==> k in before || k == last;
    }
  }

  // ---------- Resolving and splitting ----------

  /** A layout that resolves yields a topology that passes its own validation. */
  lemma ResolvedIsValid(l: ScreenLayout, inv: ScreenInventory)
    ensures Resolve(l, inv).Success? <==> ValidLayout(l, inv)
    ensures Resolve(l, inv).Success? ==> ValidTopology(Resolve(l, inv).value)
  {
    CheckLayoutExact(l, inv);
    assert NodeIds(NodesFor(inv, l.sizeOverrides)) == InventoryIds(inv);
  }

  lemma {:induction false} OverridesOfKnown(screens: seq<ScreenNode>, o: SizeOverride)
    ensures o in OverridesOf(screens) <==>
              exists s :: s in screens && s.screenId == o.screenId && s.sizeOverride == Some(o.size)
  {
    if screens != [] {
      OverridesOfKnown(screens[1..], o);
      assert forall s :: s in screens <==> s == screens[0] || s in screens[1..];
    }
  }

  lemma {:induction false} OverridesOfOthers(screens: seq<ScreenNode>, id: ScreenId)
    requires forall i | 0 <= i < |screens| :: screens[i].screenId != id
    ensures forall k | k in OverridesOf(screens) :: k.screenId != id
  {
    if screens != [] {
      OverridesOfOthers(screens[1..], id);
    }
  }

  lemma {:induction false} OverridesOfValid(screens: seq<ScreenNode>, known: set<ScreenId>)
    requires forall i, j | 0 <= i < j < |screens| :: screens[i].screenId != screens[j].screenId
    requires forall i | 0 <= i < |screens| :: screens[i].screenId in known
    ensures ValidOverrides(OverridesOf(screens), known)
  {
    if screens != [] {
      OverridesOfValid(screens[1..], known);
      if screens[0].sizeOverride.Some? {
        OverridesOfOthers(screens[1..], screens[0].screenId);
        ValidOverridesCons(SizeOverride(screens[0].screenId, screens[0].sizeOverride.value), OverridesOf(screens[1..]),
            known);
      }
    }
  }

  lemma {:induction false} OverrideForExact(os: seq<SizeOverride>, known: set<ScreenId>, id: ScreenId, size: ScreenSize)
    requires ValidOverrides(os, known)
    ensures OverrideFor(os, id) == Some(size) <==> SizeOverride(id, size) in os
  {
    if os != [] {
      assert os == [os[0]] + os[1..];
      ValidOverridesCons(os[0], os[1..], known);
      OverrideForExact(os[1..], known, id, size);
    }
  }

  /** Splitting a valid topology into inventory and layout and resolving them again gives back
      exactly that topology. */
  lemma SplitThenResolve(t: ScreenTopology)
    requires ValidTopology(t)
    ensures ValidLayout(FromTopology(t), InventoryOf(t))
    ensures Resolve(FromTopology(t), InventoryOf(t)) == Success(t)
  {
    var l, inv := FromTopology(t), InventoryOf(t);
    var ids := NodeIds(t.screens);
    assert InventoryIds(inv) == ids;
    assert forall j, k | 0 <= j < k < |t.screens| :: ids[j] != ids[k];
    assert forall j | 0 <= j < |t.screens| :: ids[j] in KnownIds(inv);
    OverridesOfValid(t.screens, KnownIds(inv));
    ResolvedIsValid(l, inv);
    forall i | 0 <= i < |t.screens| ensures OverrideFor(l.sizeOverrides, ids[i]) == t.screens[i].sizeOverride {
      SplitOverride(t.screens, i);
    }
    assert NodesFor(inv, l.sizeOverrides) == t.screens;
  }

  lemma {:induction false} NoOverride(screens: seq<ScreenNode>, id: ScreenId)
    requires forall i | 0 <= i < |screens| :: screens[i].screenId != id
    ensures OverrideFor(OverridesOf(screens), id).None?
  {
    if screens != [] {
      NoOverride(screens[1..], id);
    }
  }

  lemma {:induction false} SplitOverride(screens: seq<ScreenNode>, i: nat)
    requires i < |screens| && forall j, k | 0 <= j < k < |screens| :: screens[j].screenId != screens[k].screenId
    ensures OverrideFor(OverridesOf(screens), screens[i].screenId) == screens[i].sizeOverride
  {
    if i == 0 {
      NoOverride(screens[1..], screens[0].screenId);
    } else {
      SplitOverride(screens[1..], i - 1);
    }
  }

  /** A valid layout survives being resolved and read back: same revision and links, and the same
      overrides, though in the order of the inventory. */
  lemma ResolveThenFromTopology(l: ScreenLayout, inv: ScreenInventory)
    requires ValidLayout(l, inv)
    ensures Resolve(l, inv).Success?
    ensures var back := FromTopology(Resolve(l, inv).value);
            && back.schemaVersion == l.schemaVersion && back.revision == l.revision && back.links == l.links
            && Elements(back.sizeOverrides) == Elements(l.sizeOverrides)
            && ValidOverrides(back.sizeOverrides, KnownIds(inv))
  {
    hide ValidLinks, ValidOverrides, CheckLayout;
    ResolvedIsValid(l, inv);
    var nodes, known := NodesFor(inv, l.sizeOverrides), KnownIds(inv);
    assert forall j, k | 0 <= j < k < |nodes| :: InventoryIds(inv)[j] != InventoryIds(inv)[k];
    assert forall j | 0 <= j < |nodes| :: InventoryIds(inv)[j] in known;
    hide ValidInventory, KnownIds;
    OverridesOfValid(nodes, known);
    forall o ensures o in OverridesOf(nodes) <==> o in l.sizeOverrides {
      ResolvedOverride(inv, l.sizeOverrides, o);
    }
  }

  lemma ResolvedOverride(inv: ScreenInventory, os: seq<SizeOverride>, o: SizeOverride)
    requires ValidOverrides(os, KnownIds(inv))
    ensures o in OverridesOf(NodesFor(inv, os)) <==> o in os
  {
    var nodes := NodesFor(inv, os);
    OverridesOfKnown(nodes, o);
    OverrideForExact(os, KnownIds(inv), o.screenId, o.size);
    if o in os {
      var i :| 0 <= i < |inv| && InventoryIds(inv)[i] == o.screenId;
      assert nodes[i] in nodes;
    }
  }
}
