/** Why a topology or a layout is rejected: the first thing wrong with it, and everything before is right. */
module FaultReasons {
  import opened MachineInts
  import opened Wrappers
  import opened ScreenModel
  import opened LayoutModel

  // ---------- IDs ----------

  // The IDs before position `i` are in order and this one is not, for the reason given.
  predicate BadId(ids: seq<ScreenId>, i: nat, fault: TopologyFault)
    requires i < |ids|
  {
    && ValidIds(ids[..i])
    && match fault
       case EmptyScreenId => Blank(ids[i])
       case DuplicateScreenId(id) => !Blank(ids[i]) && id == ids[i] && id in ids[..i]
       case _ => false
  }

  lemma {:induction false} FirstBadId(ids: seq<ScreenId>, done: nat)
    requires done <= |ids| && ValidIds(ids[..done])
    ensures var fault := CheckIds(ids[done..], Elements(ids[..done]));
            fault.Some? ==> exists i :: 0 <= i < |ids| && BadId(ids, i, fault.value)
    decreases |ids| - done
  {
    if done < |ids| {
      assert ids[done..][0] == ids[done] && ids[done..][1..] == ids[done + 1..];
      if Blank(ids[done]) {
        assert BadId(ids, done, EmptyScreenId);
      } else if ids[done] in ids[..done] {
        assert BadId(ids, done, DuplicateScreenId(ids[done]));
      } else {
        assert ids[..done + 1] == ids[..done] + [ids[done]];
        hide BadId, Blank;
        assert Elements(ids[..done + 1]) == Elements(ids[..done]) + {ids[done]};
        assert ValidIds(ids[..done + 1]);
        FirstBadId(ids, done + 1);
      }
    }
  }

  // ---------- Links ----------

  predicate UsedBefore(links: seq<ScreenLink>, i: nat, e: ScreenEdge)
    requires i <= |links|
  {
    exists j | 0 <= j < i :: links[j].from == e || links[j].to == e
  }

  // The links before position `i` are in order and this one is not, for the reason given.
  predicate BadLink(links: seq<ScreenLink>, known: set<ScreenId>, i: nat, fault: TopologyFault)
    requires i < |links|
  {
    var link := links[i];
    && ValidLinks(links[..i], known)
    && match fault
       case SelfLinkedEdge => link.from == link.to
       case UnknownEndpoint => link.from != link.to && !(link.from.screenId in known && link.to.screenId in known)
       case EdgeLinkedTwice =>
         && link.from != link.to && link.from.screenId in known && link.to.screenId in known
         && (UsedBefore(links, i, link.from) || UsedBefore(links, i, link.to))
       case EdgesNotFacing =>
         && link.from != link.to && link.from.screenId in known && link.to.screenId in known
         && !UsedBefore(links, i, link.from) && !UsedBefore(links, i, link.to)
         && Opposite(link.from.edge) != link.to.edge
       case _ => false
  }

  // The edges used by the first links.
  ghost predicate IsUsed(links: seq<ScreenLink>, done: nat, occupied: set<ScreenEdge>)
    requires done <= |links|
  {
    forall e :: e in occupied <==> UsedBefore(links, done, e)
  }

  lemma UsedNext(links: seq<ScreenLink>, done: nat, occupied: set<ScreenEdge>)
    requires done < |links| && IsUsed(links, done, occupied)
    ensures IsUsed(links, done + 1, occupied + {links[done].from, links[done].to})
  {
  }

  lemma LinksNext(links: seq<ScreenLink>, done: nat, known: set<ScreenId>)
    requires done < |links| && ValidLinks(links[..done], known) && WellFormedLink(links[done], known)
    requires !UsedBefore(links, done, links[done].from) && !UsedBefore(links, done, links[done].to)
    ensures ValidLinks(links[..done + 1], known)
  {
    assert forall j | 0 <= j < done :: links[..done][j] == links[j];
  }

  lemma {:induction false} FirstBadLink(links: seq<ScreenLink>, known: set<ScreenId>, done: nat,
                                        occupied: set<ScreenEdge>)
    requires done <= |links| && ValidLinks(links[..done], known) && IsUsed(links, done, occupied)
    ensures var fault := CheckLinks(links[done..], known, occupied);
            fault.Some? ==> exists i :: 0 <= i < |links| && BadLink(links, known, i, fault.value)
    decreases |links| - done
  {
    if done < |links| {
      var link := links[done];
      assert links[done..][0] == link && links[done..][1..] == links[done + 1..];
      var fault := CheckLinks(links[done..], known, occupied);
      if link.from == link.to || !(link.from.screenId in known && link.to.screenId in known)
          || link.from in occupied || link.to in occupied || Opposite(link.from.edge) != link.to.edge {
        assert BadLink(links, known, done, fault.value);
      } else {
        hide UsedBefore, ValidLinks, BadLink;
        UsedNext(links, done, occupied);
        LinksNext(links, done, known);
        FirstBadLink(links, known, done + 1, occupied + {link.from, link.to});
      }
    }
  }

  /** A topology is rejected for the first fault in it: of its IDs, or, these being in order, of its links. */
  lemma TopologyFaultIsFirst(t: ScreenTopology)
    requires CheckTopology(t).Some?
    ensures var fault, ids := CheckTopology(t).value, NodeIds(t.screens);
            || (exists i :: 0 <= i < |ids| && BadId(ids, i, fault))
            || (ValidIds(ids) && exists i :: 0 <= i < |t.links| && BadLink(t.links, Elements(ids), i, fault))
  {
    var ids := NodeIds(t.screens);
    assert Elements(ids[..0]) == {};
    FirstBadId(ids, 0);
    FirstBadLink(t.links, Elements(ids), 0, {});
    CheckIdsExact(ids, {});
    assert ids[0..] == ids && ids[..0] == [] && t.links[0..] == t.links;
    hide CheckIds, CheckLinks, BadId, BadLink, ValidIds;
  }

  // ---------- Layouts ----------

  // An end of a link is unknown, or used by an earlier link or the link's other end.
  predicate BadEnd(links: seq<ScreenLink>, known: set<ScreenId>, i: nat, second: bool, error: LayoutError)
    requires i < |links|
  {
    var e := if second then links[i].to else links[i].from;
    match error
    case UnknownScreen(id) => id == e.screenId && id !in known
    case EdgeOccupied(edge) =>
      edge == e && e.screenId in known && (UsedBefore(links, i, e) || (second && e == links[i].from))
    case Invalid(_) => false
  }

  predicate GoodEnd(links: seq<ScreenLink>, known: set<ScreenId>, i: nat, second: bool)
    requires i < |links|
  {
    var e := if second then links[i].to else links[i].from;
    e.screenId in known && !UsedBefore(links, i, e) && (second ==> e != links[i].from)
  }

  // The links before position `i` are in order and this one is not: its first end, its second, or their sides.
  predicate BadLayoutLink(links: seq<ScreenLink>, known: set<ScreenId>, i: nat, error: LayoutError)
    requires i < |links|
  {
    && ValidLinks(links[..i], known)
    && (|| BadEnd(links, known, i, false, error)
        || (GoodEnd(links, known, i, false) && BadEnd(links, known, i, true, error))
        || (GoodEnd(links, known, i, false) && GoodEnd(links, known, i, true)
            && Opposite(links[i].from.edge) != links[i].to.edge && error == Invalid(NotFacing)))
  }

  lemma {:induction false} FirstBadLayoutLink(links: seq<ScreenLink>, known: set<ScreenId>, done: nat,
                                              occupied: set<ScreenEdge>)
    requires done <= |links| && ValidLinks(links[..done], known) && IsUsed(links, done, occupied)
    ensures var error := CheckLayoutLinks(links[done..], known, occupied);
            error.Some? ==> exists i :: 0 <= i < |links| && BadLayoutLink(links, known, i, error.value)
    decreases |links| - done
  {
    if done < |links| {
      var link := links[done];
      assert links[done..][0] == link && links[done..][1..] == links[done + 1..];
      var error := CheckLayoutLinks(links[done..], known, occupied);
      if !GoodEnd(links, known, done, false) || !GoodEnd(links, known, done, true)
          || Opposite(link.from.edge) != link.to.edge {
        assert BadLayoutLink(links, known, done, error.value);
      } else {
        UsedNext(links, done, occupied);
        LinksNext(links, done, known);
        hide UsedBefore, ValidLinks, BadLayoutLink;
        FirstBadLayoutLink(links, known, done + 1, occupied + {link.from, link.to});
      }
    }
  }

  // The overrides before position `i` are in order and this one is not, for the reason given.
  predicate BadOverride(os: seq<SizeOverride>, known: set<ScreenId>, i: nat, error: LayoutError)
    requires i < |os|
  {
    && ValidOverrides(os[..i], known)
    && match error
       case UnknownScreen(id) => id == os[i].screenId && id !in known
       case Invalid(DuplicateOverride(id)) =>
         id == os[i].screenId && id in known && exists j | 0 <= j < i :: os[j].screenId == id
       case _ => false
  }

  lemma {:induction false} FirstBadOverride(os: seq<SizeOverride>, known: set<ScreenId>, done: nat, seen: set<ScreenId>)
    requires done <= |os| && ValidOverrides(os[..done], known)
    requires forall id :: id in seen <==> exists j | 0 <= j < done :: os[j].screenId == id
    ensures var error := CheckOverrides(os[done..], known, seen);
            error.Some? ==> exists i :: 0 <= i < |os| && BadOverride(os, known, i, error.value)
    decreases |os| - done
  {
    if done < |os| {
      var id := os[done].screenId;
      assert os[done..][0] == os[done] && os[done..][1..] == os[done + 1..];
      if id !in known {
        assert BadOverride(os, known, done, UnknownScreen(id));
      } else if id in seen {
        assert BadOverride(os, known, done, Invalid(DuplicateOverride(id)));
      } else {
        FirstBadOverride(os, known, done + 1, seen + {id});
      }
    }
  }

  /** A layout is rejected for the first fault in it: its version, the inventory, its links, its overrides. */
  lemma LayoutErrorIsFirst(l: ScreenLayout, inv: ScreenInventory)
    requires CheckLayout(l, inv).Some?
    ensures var error, ids := CheckLayout(l, inv).value, InventoryIds(inv);
            var known := KnownIds(inv);
            if l.schemaVersion != 1 then error == Invalid(UnsupportedSchema(l.schemaVersion))
            else if !ValidInventory(inv) then
              error.Invalid? && error.reason.BadScreenId?
              && exists i :: 0 <= i < |ids| && BadId(ids, i, error.reason.fault)
            else if !ValidLinks(l.links, known) then
              exists i :: 0 <= i < |l.links| && BadLayoutLink(l.links, known, i, error)
            else exists i :: 0 <= i < |l.sizeOverrides| && BadOverride(l.sizeOverrides, known, i, error)
  {
    var ids, known := InventoryIds(inv), KnownIds(inv);
    assert Elements(ids[..0]) == {};
    FirstBadId(ids, 0);
    FirstBadLayoutLink(l.links, known, 0, {});
    FirstBadOverride(l.sizeOverrides, known, 0, {});
    CheckIdsExact(ids, {});
    CheckLayoutLinksExact(l.links, known, {});
    assert ids[0..] == ids && ids[..0] == [] && l.links[0..] == l.links && l.sizeOverrides[0..] == l.sizeOverrides;
    hide CheckIds, CheckLayoutLinks, CheckOverrides, BadId, BadLayoutLink, BadOverride, ValidIds, KnownIds;
  }
}
