/** Placing linked screens on a grid by breadth-first search, as the layout diagram does. */
module GridEmbedding {
  import opened MachineInts
  import opened Wrappers
  import opened ScreenModel

  datatype Cell = Cell(x: int, y: int)
  {
    function Plus(d: Cell): Cell {
      Cell(x + d.x, y + d.y)
    }
  }

  const ORIGIN: Cell := Cell(0, 0)

  type Placement = map<ScreenId, Cell>

  function Delta(e: Edge): Cell {
    match e
    case Top => Cell(0, -1)
    case Right => Cell(1, 0)
    case Bottom => Cell(0, 1)
    case Left => Cell(-1, 0)
  }

  function Ids(t: ScreenTopology): set<ScreenId> {
    Elements(NodeIds(t.screens))
  }

  // ---------- What a complete diagram means ----------

  // The two screens of a link are neighbours, the second one on the side of the first that its edge names.
  predicate Respects(p: Placement, link: ScreenLink) {
    && link.from.screenId in p && link.to.screenId in p
    && var a, b := p[link.from.screenId], p[link.to.screenId];
       match link.from.edge
       case Left => b.x == a.x - 1 && b.y == a.y
       case Right => b.x == a.x + 1 && b.y == a.y
       case Top => b.x == a.x && b.y == a.y - 1
       case Bottom => b.x == a.x && b.y == a.y + 1
  }

  predicate Embeds(p: Placement, t: ScreenTopology) {
    forall i | 0 <= i < |t.links| :: Respects(p, t.links[i])
  }

  predicate Joins(link: ScreenLink, a: ScreenId, b: ScreenId) {
    || (link.from.screenId == a && link.to.screenId == b)
    || (link.to.screenId == a && link.from.screenId == b)
  }

  predicate Adjacent(t: ScreenTopology, a: ScreenId, b: ScreenId) {
    exists i | 0 <= i < |t.links| :: Joins(t.links[i], a, b)
  }

  predicate IsPath(t: ScreenTopology, path: seq<ScreenId>) {
    path != [] && forall i | 0 < i < |path| :: Adjacent(t, path[i - 1], path[i])
  }

  ghost predicate Reachable(t: ScreenTopology, a: ScreenId, b: ScreenId) {
    exists path :: IsPath(t, path) && path[0] == a && path[|path| - 1] == b
  }

  // Every screen hangs together with the root, and some placement respects every link.
  ghost predicate HasEmbedding(t: ScreenTopology, root: ScreenId) {
    && (forall id | id in Ids(t) :: Reachable(t, root, id))
    && exists p :: Embeds(p, t)
  }

  lemma ReachableStep(t: ScreenTopology, root: ScreenId, a: ScreenId, b: ScreenId)
    requires Reachable(t, root, a) && Adjacent(t, a, b)
    ensures Reachable(t, root, b)
  {
    var path :| IsPath(t, path) && path[0] == root && path[|path| - 1] == a;
    var longer := path + [b];
    forall i | 0 < i < |longer| ensures Adjacent(t, longer[i - 1], longer[i]) {
      if i < |path| { assert longer[i - 1] == path[i - 1] && longer[i] == path[i]; }
    }
    assert IsPath(t, longer) && longer[0] == root && longer[|longer| - 1] == b;
  }

  // A set that contains the root and is closed under links contains everything reachable.
  lemma {:induction false} ClosedContainsPath(t: ScreenTopology, s: set<ScreenId>, path: seq<ScreenId>)
    requires IsPath(t, path) && path[0] in s
    requires forall a, b :: a in s && Adjacent(t, a, b) ==> b in s
    ensures path[|path| - 1] in s
  {
    if |path| > 1 {
      var shorter := path[..|path| - 1];
      assert IsPath(t, shorter);
      ClosedContainsPath(t, s, shorter);
      assert Adjacent(t, path[|path| - 2], path[|path| - 1]);
    }
  }

  // ---------- Invariants of the search ----------

  // Every placement that respects all links and has the root at the origin agrees with `p`.
  ghost predicate Forced(t: ScreenTopology, root: ScreenId, p: Placement, conflict: bool) {
    forall q: Placement | Embeds(q, t) && root in q && q[root] == ORIGIN ::
      !conflict && Agrees(q, p)
  }

  predicate Agrees(q: Placement, p: Placement) {
    forall v | v in p :: v in q && q[v] == p[v]
  }

  // Links with an end in `done` have both ends placed, without conflict one step apart.
  ghost predicate Settled(t: ScreenTopology, done: set<ScreenId>, p: Placement, conflict: bool) {
    forall i | 0 <= i < |t.links| :: SettledLink(t.links[i], done, p, conflict)
  }

  predicate SettledLink(link: ScreenLink, done: set<ScreenId>, p: Placement, conflict: bool) {
    link.from.screenId in done || link.to.screenId in done ==>
      && link.from.screenId in p && link.to.screenId in p
      && (!conflict ==> Respects(p, link))
  }

  predicate SettledUpTo(t: ScreenTopology, k: nat, id: ScreenId, p: Placement, conflict: bool)
    requires k <= |t.links|
  {
    forall i | 0 <= i < k :: SettledLink(t.links[i], {id}, p, conflict)
  }

  ghost predicate AllReachable(t: ScreenTopology, root: ScreenId, p: Placement) {
    forall v | v in p :: Reachable(t, root, v)
  }

  // The neighbour a link proposes for `id`, and where.
  function Neighbour(link: ScreenLink, id: ScreenId): Option<(ScreenId, Edge)> {
    if link.from.screenId == id then Some((link.to.screenId, link.from.edge))
    else if link.to.screenId == id then Some((link.from.screenId, link.to.edge))
    else None
  }

  lemma ProposalRespects(link: ScreenLink, known: set<ScreenId>, id: ScreenId, p: Placement)
    requires WellFormedLink(link, known) && Neighbour(link, id).Some?
    requires id in p && Neighbour(link, id).value.0 in p
    ensures Respects(p, link) <==> p[Neighbour(link, id).value.0] == p[id].Plus(Delta(Neighbour(link, id).value.1))
  {
  }

  // Placements only grow: what has been placed stays where it is.
  predicate Grows(p: Placement, p': Placement) {
    forall v | v in p :: v in p' && p'[v] == p[v]
  }

  lemma SettledGrows(t: ScreenTopology, done: set<ScreenId>, p: Placement, p': Placement, conflict: bool,
                     conflict': bool)
    requires Settled(t, done, p, conflict) && Grows(p, p') && (conflict ==> conflict')
    ensures Settled(t, done, p', conflict')
  {
  }

  // The state of the search while the links of `id` are examined; `done` are the screens finished.
  ghost predicate Searching(t: ScreenTopology, root: ScreenId, done: set<ScreenId>, p: Placement, conflict: bool)
  {
    && root in p && p[root] == ORIGIN && p.Keys <= Ids(t)
    && AllReachable(t, root, p) && Settled(t, done, p, conflict) && Forced(t, root, p, conflict)
  }

  // Examining one link of `id` either confirms a placement, contradicts one or makes a new one.
  function Examined(link: ScreenLink, id: ScreenId, p: Placement, conflict: bool): (Placement, bool)
    requires id in p
  {
    var n := Neighbour(link, id);
    if n.None? then (p, conflict)
    else
      var (target, proposed) := (n.value.0, p[id].Plus(Delta(n.value.1)));
      if target !in p then (p[target := proposed], conflict)
      else (p, conflict || p[target] != proposed)
  }

  lemma ExamineForced(t: ScreenTopology, root: ScreenId, id: ScreenId, i: nat, p: Placement, conflict: bool)
    requires ValidTopology(t) && i < |t.links| && id in p && Forced(t, root, p, conflict)
    ensures var (p', conflict') := Examined(t.links[i], id, p, conflict); Forced(t, root, p', conflict')
  {
  }

  lemma ExamineSettles(t: ScreenTopology, root: ScreenId, id: ScreenId, k: nat, p: Placement, conflict: bool)
    requires ValidTopology(t) && k < |t.links| && id in p
    requires SettledUpTo(t, k, id, p, conflict)
    ensures var (p', conflict') := Examined(t.links[k], id, p, conflict);
            SettledUpTo(t, k + 1, id, p', conflict') && Grows(p, p') && (conflict ==> conflict')
  {
    var link := t.links[k];
    var (p', conflict') := Examined(link, id, p, conflict);
    assert WellFormedLink(link, Ids(t));
    if Neighbour(link, id).Some? {
      ProposalRespects(link, Ids(t), id, p');
    }
    assert SettledLink(link, {id}, p', conflict');
    hide ValidTopology, Examined;
    forall i | 0 <= i < k ensures SettledLink(t.links[i], {id}, p', conflict') {
      assert SettledLink(t.links[i], {id}, p, conflict);
    }
  }

  lemma ExamineReaches(t: ScreenTopology, root: ScreenId, id: ScreenId, k: nat, p: Placement, conflict: bool)
    requires ValidTopology(t) && k < |t.links| && id in p && AllReachable(t, root, p) && p.Keys <= Ids(t)
    ensures var (p', _) := Examined(t.links[k], id, p, conflict);
            AllReachable(t, root, p') && p'.Keys <= Ids(t)
  {
    var n := Neighbour(t.links[k], id);
    assert WellFormedLink(t.links[k], Ids(t));
    if n.Some? {
      assert Joins(t.links[k], id, n.value.0);
      ReachableStep(t, root, id, n.value.0);
    }
    hide ValidTopology, Reachable;
  }

  lemma ExamineKeepsSearching(t: ScreenTopology, root: ScreenId, done: set<ScreenId>, id: ScreenId, k: nat,
                              p: Placement, conflict: bool)
    requires ValidTopology(t) && k < |t.links| && id in p && SettledUpTo(t, k, id, p, conflict)
    requires Searching(t, root, done, p, conflict)
    ensures var (p', conflict') := Examined(t.links[k], id, p, conflict);
            Searching(t, root, done, p', conflict') && SettledUpTo(t, k + 1, id, p', conflict') && Grows(p, p')
  {
    hide ValidTopology, Settled, Forced, AllReachable, SettledUpTo, Examined, Ids;
    var (p', conflict') := Examined(t.links[k], id, p, conflict);
    ExamineForced(t, root, id, k, p, conflict);
    ExamineSettles(t, root, id, k, p, conflict);
    ExamineReaches(t, root, id, k, p, conflict);
    SettledGrows(t, done, p, p', conflict, conflict');
  }

  lemma SettleFinished(t: ScreenTopology, root: ScreenId, done: set<ScreenId>, id: ScreenId, p: Placement,
                       conflict: bool)
    requires Searching(t, root, done, p, conflict) && SettledUpTo(t, |t.links|, id, p, conflict)
    ensures Searching(t, root, done + {id}, p, conflict)
  {
  }

  lemma Appended(queue: seq<ScreenId>, id: ScreenId)
    requires DistinctIds(queue) && id !in Elements(queue)
    ensures DistinctIds(queue + [id]) && Elements(queue + [id]) == Elements(queue) + {id}
  {
  }

  lemma NothingSettledYet(t: ScreenTopology, id: ScreenId, p: Placement, conflict: bool)
    ensures SettledUpTo(t, 0, id, p, conflict)
  {
  }

  // The inner loop of `render_diagram`: all links of the screen just taken from the queue.
  method Expand(t: ScreenTopology, ghost root: ScreenId,
                id: ScreenId, ghost done: set<ScreenId>, p0: Placement, queue0: seq<ScreenId>, conflict0: bool)
    returns (p: Placement, queue: seq<ScreenId>, conflict: bool)
    requires ValidTopology(t) && id in p0 && Searching(t, root, done, p0, conflict0)
    requires DistinctIds(queue0) && Elements(queue0) <= p0.Keys
    ensures Searching(t, root, done + {id}, p, conflict)
    ensures DistinctIds(queue) && Elements(queue) == Elements(queue0) + (p.Keys - p0.Keys)
    ensures Grows(p0, p)
  {
    hide ValidTopology, Searching, SettledUpTo, DistinctIds;
    p, queue, conflict := p0, queue0, conflict0;
    NothingSettledYet(t, id, p, conflict);
    for k := 0 to |t.links|
      invariant Grows(p0, p) && Searching(t, root, done, p, conflict) && SettledUpTo(t, k, id, p, conflict)
      invariant DistinctIds(queue) && Elements(queue) == Elements(queue0) + (p.Keys - p0.Keys)
    {
      ExamineKeepsSearching(t, root, done, id, k, p, conflict);
      var neighbour := Neighbour(t.links[k], id);
      if neighbour.Some? {
        var (target, edge) := neighbour.value;
        var proposed := p[id].Plus(Delta(edge));
        if target !in p {
          assert target !in Elements(queue);
          Appended(queue, target);
          p := p[target := proposed];
          queue := queue + [target];
        } else if p[target] != proposed {
          conflict := true;
        }
      }
    }
    SettleFinished(t, root, done, id, p, conflict);
  }

  // ---------- The search ----------

  // The screen of this device, or else the first one.
  function RootOf(screens: seq<ScreenNode>): Option<ScreenId> {
    if screens == [] then None else if screens[0].thisDevice then Some(screens[0].screenId) else RootOf(screens[1..])
  }

  function Root(t: ScreenTopology): ScreenId
    requires t.screens != []
  {
    var found := RootOf(t.screens);
    if found.Some? then found.value else t.screens[0].screenId
  }

  lemma {:induction false} RootIsListed(screens: seq<ScreenNode>)
    ensures RootOf(screens).Some? ==> exists i :: 0 <= i < |screens| && screens[i].screenId == RootOf(screens).value
  {
    if screens != [] && !screens[0].thisDevice {
      RootIsListed(screens[1..]);
      if RootOf(screens).Some? {
        var i :| 0 <= i < |screens[1..]| && screens[1..][i].screenId == RootOf(screens).value;
        assert screens[i + 1].screenId == RootOf(screens).value;
      }
    }
  }

  // The root is the first screen of this device, or the very first if there is none.
  lemma RootExact(t: ScreenTopology)
    requires t.screens != []
    ensures exists i | 0 <= i < |t.screens| ::
              && Root(t) == t.screens[i].screenId
              && (forall j | 0 <= j < i :: !t.screens[j].thisDevice)
              && (t.screens[i].thisDevice || (i == 0 && forall j | 0 <= j < |t.screens| :: !t.screens[j].thisDevice))
  {
    RootIsFirst(t.screens);
  }

  lemma {:induction false} RootIsFirst(screens: seq<ScreenNode>)
    ensures RootOf(screens).None? <==> forall j | 0 <= j < |screens| :: !screens[j].thisDevice
    ensures RootOf(screens).Some? ==>
              exists i | 0 <= i < |screens| ::
                && screens[i].thisDevice && screens[i].screenId == RootOf(screens).value
                && forall j | 0 <= j < i :: !screens[j].thisDevice
  {
    if screens != [] && !screens[0].thisDevice {
      RootIsFirst(screens[1..]);
      assert forall j | 0 < j < |screens| :: screens[j] == screens[1..][j - 1];
      if RootOf(screens).Some? {
        var i :| 0 <= i < |screens[1..]| && screens[1..][i].thisDevice
            && screens[1..][i].screenId == RootOf(screens).value
            && forall j | 0 <= j < i :: !screens[1..][j].thisDevice;
        assert screens[i + 1].thisDevice;
      }
    }
  }

  lemma SearchStarts(t: ScreenTopology)
    requires t.screens != []
    ensures Root(t) in Ids(t) && Searching(t, Root(t), {}, map[Root(t) := ORIGIN], false)
  {
    var root := Root(t);
    RootIsListed(t.screens);
    var i :| 0 <= i < |t.screens| && t.screens[i].screenId == root;
    assert NodeIds(t.screens)[i] == root;
    assert IsPath(t, [root]) && [root][0] == root && [root][|[root]| - 1] == root;
  }

  // Moving a placement so that the root lies at the origin keeps it respectful.
  function Centred(p: Placement, root: ScreenId): Placement
    requires root in p
  {
    map v | v in p :: Cell(p[v].x - p[root].x, p[v].y - p[root].y)
  }

  lemma CentredEmbeds(t: ScreenTopology, p: Placement, root: ScreenId)
    requires Embeds(p, t) && root in p
    ensures Embeds(Centred(p, root), t) && Centred(p, root)[root] == ORIGIN
  {
  }

  // When the queue is empty the placed screens are exactly the reachable ones.
  lemma FinishedIsReachable(t: ScreenTopology, root: ScreenId, p: Placement, conflict: bool)
    requires Searching(t, root, p.Keys, p, conflict)
    ensures forall id :: id in p <==> Reachable(t, root, id)
  {
    forall a, b | a in p.Keys && Adjacent(t, a, b) ensures b in p.Keys {
      var i :| 0 <= i < |t.links| && Joins(t.links[i], a, b);
      assert SettledLink(t.links[i], p.Keys, p, conflict);
    }
    forall id | Reachable(t, root, id) ensures id in p {
      var path :| IsPath(t, path) && path[0] == root && path[|path| - 1] == id;
      ClosedContainsPath(t, p.Keys, path);
    }
  }

  lemma FinishedExact(t: ScreenTopology, root: ScreenId, p: Placement, conflict: bool)
    requires ValidTopology(t) && Searching(t, root, p.Keys, p, conflict)
    ensures (p.Keys == Ids(t) && !conflict) <==> HasEmbedding(t, root)
    ensures p.Keys == Ids(t) && !conflict ==> Embeds(p, t)
  {
    FinishedIsReachable(t, root, p, conflict);
    if p.Keys == Ids(t) && !conflict {
      forall i | 0 <= i < |t.links| ensures Respects(p, t.links[i]) {
        assert WellFormedLink(t.links[i], Ids(t)) && SettledLink(t.links[i], p.Keys, p, conflict);
      }
      assert Embeds(p, t);
    }
    if HasEmbedding(t, root) {
      var q :| Embeds(q, t);
      var q' := if root in q then q else q[root := ORIGIN];
      assert Embeds(q', t);
      CentredEmbeds(t, q', root);
      assert !conflict;
    }
    hide ValidTopology, Reachable;
  }

  lemma CountedExactly(t: ScreenTopology, s: set<ScreenId>)
    requires ValidTopology(t) && s <= Ids(t)
    ensures |Ids(t)| == |t.screens|
    ensures |s| == |t.screens| <==> s == Ids(t)
  {
    DistinctCount(NodeIds(t.screens));
    if s != Ids(t) {
      var extra :| extra in Ids(t) && extra !in s;
      SubsetCount(s, Ids(t) - {extra});
    }
  }

  lemma {:induction false} DistinctCount(ids: seq<ScreenId>)
    requires DistinctIds(ids)
    ensures |Elements(ids)| == |ids|
  {
    if ids != [] {
      var shorter, last := ids[..|ids| - 1], ids[|ids| - 1];
      DistinctCount(shorter);
      assert Elements(ids) == Elements(shorter) + {last} && last !in Elements(shorter);
    }
  }

  lemma {:induction false} SubsetCount(a: set<ScreenId>, b: set<ScreenId>)
    requires a <= b
    ensures |a| <= |b|
  {
    if x :| x in a {
      SubsetCount(a - {x}, b - {x});
    }
  }

  lemma Dequeued(queue: seq<ScreenId>)
    requires queue != [] && DistinctIds(queue)
    ensures DistinctIds(queue[1..]) && Elements(queue[1..]) == Elements(queue) - {queue[0]}
            && queue[0] in Elements(queue)
  {
  }

  // ---------- Whether the linked screens are drawn apart ----------

  // No two screens of the topology share a cell.
  predicate Apart(p: Placement, t: ScreenTopology) {
    && Ids(t) <= p.Keys
    && forall a, b | a in Ids(t) && b in Ids(t) && a != b :: p[a] != p[b]
  }

  ghost predicate HasApartEmbedding(t: ScreenTopology) {
    exists p :: Embeds(p, t) && Apart(p, t)
  }

  // Placements that respect the links move from screen to linked screen by the same step.
  lemma SameStep(t: ScreenTopology, p: Placement, q: Placement, a: ScreenId, b: ScreenId)
    requires Embeds(p, t) && Embeds(q, t) && Adjacent(t, a, b)
    ensures a in p && a in q && b in p && b in q
    ensures p[b].x - p[a].x == q[b].x - q[a].x && p[b].y - p[a].y == q[b].y - q[a].y
  {
    var i :| 0 <= i < |t.links| && Joins(t.links[i], a, b);
    assert Respects(p, t.links[i]) && Respects(q, t.links[i]);
  }

  lemma {:induction false} SameShift(t: ScreenTopology, p: Placement, q: Placement, path: seq<ScreenId>)
    requires Embeds(p, t) && Embeds(q, t) && IsPath(t, path) && path[0] in p && path[0] in q
    ensures var a, b := path[0], path[|path| - 1];
            && b in p && b in q
            && p[b].x - q[b].x == p[a].x - q[a].x && p[b].y - q[b].y == p[a].y - q[a].y
  {
    hide Embeds, Adjacent;
    if |path| > 1 {
      var shorter := path[..|path| - 1];
      assert IsPath(t, shorter);
      SameShift(t, p, q, shorter);
      assert Adjacent(t, path[|path| - 2], path[|path| - 1]);
      SameStep(t, p, q, path[|path| - 2], path[|path| - 1]);
    }
  }

  // Where everything hangs together, any two embeddings differ by a shift, so one keeps the screens
  // apart exactly if the other does.
  lemma EmbeddingsAreAlike(t: ScreenTopology, root: ScreenId, p: Placement, q: Placement)
    requires Embeds(p, t) && Embeds(q, t) && Ids(t) <= p.Keys && Ids(t) <= q.Keys && root in Ids(t)
    requires forall id | id in Ids(t) :: Reachable(t, root, id)
    ensures Apart(p, t) <==> Apart(q, t)
  {
    hide Embeds, Ids;
    forall id | id in Ids(t)
      ensures p[id].x - q[id].x == p[root].x - q[root].x && p[id].y - q[id].y == p[root].y - q[root].y
    {
      var path :| IsPath(t, path) && path[0] == root && path[|path| - 1] == id;
      SameShift(t, p, q, path);
    }
    hide Reachable;
  }

  // A complete placement keeps the screens apart if and only if any embedding does.
  lemma ApartExact(t: ScreenTopology, root: ScreenId, p: Placement)
    requires HasEmbedding(t, root) && Embeds(p, t) && Ids(t) <= p.Keys && root in Ids(t)
    ensures Apart(p, t) <==> HasApartEmbedding(t)
  {
    hide Embeds, Apart, Reachable, Ids;
    if HasApartEmbedding(t) {
      var q :| Embeds(q, t) && Apart(q, t);
      ApartCovers(q, t);
      EmbeddingsAreAlike(t, root, p, q);
    }
  }

  lemma ApartCovers(p: Placement, t: ScreenTopology)
    requires Apart(p, t)
    ensures Ids(t) <= p.Keys
  {
  }

  lemma SearchFinished(t: ScreenTopology, root: ScreenId, p: Placement, conflict: bool)
    requires ValidTopology(t) && Searching(t, root, p.Keys, p, conflict)
    ensures var complete := |p.Keys| == |t.screens| && !conflict;
            && (complete <==> HasEmbedding(t, root))
            && (complete ==> Embeds(p, t) && (Apart(p, t) <==> HasApartEmbedding(t)))
    ensures forall id :: id in p <==> Reachable(t, root, id)
  {
    RootIsPlaced(t, root, p.Keys, p, conflict);
    hide ValidTopology, Searching, HasEmbedding, Embeds, Reachable, Ids, Apart, HasApartEmbedding;
    PlacedIsKnown(t, root, p.Keys, p, conflict);
    FinishedIsReachable(t, root, p, conflict);
    FinishedExact(t, root, p, conflict);
    CountedExactly(t, p.Keys);
    if p.Keys == Ids(t) && !conflict {
      ApartExact(t, root, p);
    }
  }

  lemma PlacedIsKnown(t: ScreenTopology, root: ScreenId, done: set<ScreenId>, p: Placement, conflict: bool)
    requires Searching(t, root, done, p, conflict)
    ensures p.Keys <= Ids(t)
  {
  }

  lemma RootIsPlaced(t: ScreenTopology, root: ScreenId, done: set<ScreenId>, p: Placement, conflict: bool)
    requires Searching(t, root, done, p, conflict)
    ensures root in p
  {
  }

  // The state of the search between two screens: `order` has been taken from the queue so far.
  ghost predicate Placing(t: ScreenTopology, root: ScreenId, order: seq<ScreenId>, queue: seq<ScreenId>, p: Placement,
                          conflict: bool) {
    && Searching(t, root, Elements(order), p, conflict)
    && DistinctIds(queue) && DistinctIds(order)
    && Elements(order) !! Elements(queue) && p.Keys == Elements(order) + Elements(queue)
  }

  lemma PlacingStarts(t: ScreenTopology)
    requires t.screens != []
    ensures Placing(t, Root(t), [], [Root(t)], map[Root(t) := ORIGIN], false)
  {
    SearchStarts(t);
    hide Searching, Root;
    assert Elements([Root(t)]) == {Root(t)} && Elements<ScreenId>([]) == {};
  }

  lemma PlacingTakes(t: ScreenTopology, root: ScreenId, order: seq<ScreenId>, queue: seq<ScreenId>, p: Placement,
                     conflict: bool)
    requires Placing(t, root, order, queue, p, conflict) && queue != []
    ensures queue[0] in p && queue[0] in Ids(t) && queue[0] !in Elements(order)
    ensures Searching(t, root, Elements(order), p, conflict) && DistinctIds(queue[1..])
            && Elements(queue[1..]) <= p.Keys
  {
    Dequeued(queue);
    PlacedIsKnown(t, root, Elements(order), p, conflict);
    hide Searching, Elements, Ids, DistinctIds;
  }

  lemma PlacingContinues(t: ScreenTopology, root: ScreenId, order: seq<ScreenId>, queue: seq<ScreenId>, p: Placement,
                         conflict: bool, queue': seq<ScreenId>, p': Placement, conflict': bool)
    requires Placing(t, root, order, queue, p, conflict) && queue != []
    requires Searching(t, root, Elements(order) + {queue[0]}, p', conflict') && DistinctIds(queue') && Grows(p, p')
    requires Elements(queue') == Elements(queue[1..]) + (p'.Keys - p.Keys)
    ensures Placing(t, root, order + [queue[0]], queue', p', conflict')
    ensures Elements(order + [queue[0]]) == Elements(order) + {queue[0]}
  {
    PlacingTakes(t, root, order, queue, p, conflict);
    Dequeued(queue);
    Appended(order, queue[0]);
    hide Searching, Elements, DistinctIds;
    assert p.Keys <= p'.Keys;
  }

  lemma PlacingEnds(t: ScreenTopology, root: ScreenId, order: seq<ScreenId>, p: Placement, conflict: bool)
    requires ValidTopology(t) && Placing(t, root, order, [], p, conflict)
    ensures var complete := |p.Keys| == |t.screens| && !conflict;
            && (complete <==> HasEmbedding(t, root))
            && (complete ==> Embeds(p, t) && (Apart(p, t) <==> HasApartEmbedding(t)))
    ensures forall id :: id in p <==> Reachable(t, root, id)
    ensures DistinctIds(order) && Elements(order) == p.Keys
  {
    assert Elements<ScreenId>([]) == {};
    hide ValidTopology, Searching, HasEmbedding, Embeds, Reachable, DistinctIds, Apart, HasApartEmbedding;
    assert Elements(order) == p.Keys;
    SearchFinished(t, root, p, conflict);
  }

  /** The breadth-first placement of `render_diagram`. It terminates, takes each screen from the queue
      at most once, places exactly the screens that are linked to the root, and reports a complete
      diagram if and only if every screen is reachable and some placement respects every link, in which
      case its own does, and keeps all screens apart if and only if any such placement can. */
  method PlaceLinked(t: ScreenTopology) returns (p: Placement, complete: bool, ghost order: seq<ScreenId>)
    requires ValidTopology(t) && t.screens != []
    ensures complete <==> HasEmbedding(t, Root(t))
    ensures complete ==> Embeds(p, t) && (Apart(p, t) <==> HasApartEmbedding(t))
    ensures forall id :: id in p <==> Reachable(t, Root(t), id)
    ensures DistinctIds(order) && Elements(order) == p.Keys
  {
    hide ValidTopology, Placing, Searching, DistinctIds, HasEmbedding, HasApartEmbedding, Apart, Embeds, Reachable,
      Ids, Root, Elements;
    var root := Root(t);
    p := map[root := ORIGIN];
    var queue, conflict := [root], false;
    order := [];
    PlacingStarts(t);
    while queue != []
      invariant Placing(t, root, order, queue, p, conflict)
      decreases Ids(t) - Elements(order)
    {
      PlacingTakes(t, root, order, queue, p, conflict);
      var id := queue[0];
      var p', queue', conflict' := Expand(t, root, id, Elements(order), p, queue[1..], conflict);
      PlacingContinues(t, root, order, queue, p, conflict, queue', p', conflict');
      p, queue, conflict := p', queue', conflict';
      order := order + [id];
    }
    PlacingEnds(t, root, order, p, conflict);
    complete := |p.Keys| == |t.screens| && !conflict;
  }

  // ---------- The screens that are not linked to the root ----------

  // The largest column in use.
  method RightmostColumn(p: Placement) returns (x: int)
    requires p != map[]
    ensures exists v :: v in p && p[v].x == x
    ensures forall v | v in p :: p[v].x <= x
  {
    var rest := p.Keys;
    var first :| first in rest;
    rest := rest - {first};
    x := p[first].x;
    while rest != {}
      invariant rest <= p.Keys
      invariant exists v :: v in p && p[v].x == x
      invariant forall v | v in p && v !in rest :: p[v].x <= x
      decreases rest
    {
      var v :| v in rest;
      rest := rest - {v};
      if p[v].x > x {
        x := p[v].x;
      }
    }
  }

  /** The screens the search did not reach are lined up on the root's row, each in a column of its own
      to the right of everything the search placed. */
  method PlaceRest(t: ScreenTopology, p0: Placement) returns (p: Placement)
    requires p0 != map[]
    ensures p.Keys == p0.Keys + Ids(t) && Grows(p0, p)
    ensures forall v, w | v in p && v !in p0 && w in p0 :: p[v].y == 0 && p[v].x >= p0[w].x + 2
    ensures forall v, w | v in p && v !in p0 && w in p && w !in p0 && v != w :: p[v] != p[w]
  {
    p := p0;
    var start := RightmostColumn(p0);
    var nextX := start + 2;
    var names := NodeIds(t.screens);
    for i := 0 to |t.screens|
      invariant p.Keys == p0.Keys + Elements(names[..i]) && Grows(p0, p)
      invariant nextX >= start + 2
      invariant forall v | v in p && v !in p0 :: p[v].y == 0 && start + 2 <= p[v].x < nextX
      invariant forall v, w | v in p && v !in p0 && w in p && w !in p0 && v != w :: p[v].x != p[w].x
    {
      var id := t.screens[i].screenId;
      assert names[..i + 1] == names[..i] + [id];
      if id !in p {
        p := p[id := Cell(nextX, 0)];
        nextX := nextX + 1;
      }
    }
    assert names[..|names|] == names;
  }

  // ---------- Complete diagrams may still overlap ----------

  // Five screens in a row of links that leads right, up, left and down again; the last one is not
  // linked to the first.
  function LoopId(i: nat): ScreenId
    requires i < 5
  {
    [if i == 0 then 'a' else if i == 1 then 'b' else if i == 2 then 'c' else if i == 3 then 'd' else 'e']
  }

  function LoopEdge(i: nat): Edge
    requires i < 4
  {
    if i == 0 then Right else if i == 1 then Top else if i == 2 then Left else Bottom
  }

  function LoopCell(i: nat): Cell
    requires i < 5
  {
    if i == 1 then Cell(1, 0) else if i == 2 then Cell(1, -1) else if i == 3 then Cell(0, -1) else ORIGIN
  }

  function LoopScreen(i: nat): ScreenNode
    requires i < 5
  {
    ScreenNode(LoopId(i), LoopId(i), LoopId(i), LoopId(i), Dimensions(1, 1), None, true, i == 0)
  }

  function LoopLink(i: nat): ScreenLink
    requires i < 4
  {
    ScreenLink(ScreenEdge(LoopId(i), LoopEdge(i)), ScreenEdge(LoopId(i + 1), Opposite(LoopEdge(i))))
  }

  function Loop(): ScreenTopology {
    ScreenTopology(0, seq(5, i requires 0 <= i < 5 => LoopScreen(i)), seq(4, i requires 0 <= i < 4 => LoopLink(i)))
  }

  lemma LoopIdsDiffer(i: nat, j: nat)
    requires i < j < 5
    ensures LoopId(i) != LoopId(j)
  {
    assert LoopId(i)[0] != LoopId(j)[0];
  }

  lemma LoopIdIsKnown(i: nat)
    requires i < 5
    ensures NodeIds(Loop().screens)[i] == LoopId(i) && LoopId(i) in Ids(Loop()) && !Blank(LoopId(i))
  {
    assert NodeIds(Loop().screens)[i] == LoopId(i) && !IsWhitespace(LoopId(i)[0]);
  }

  lemma LoopLinksAreApart(i: nat, j: nat)
    requires i < j < 4
    ensures !Clash(LoopLink(i), LoopLink(j))
  {
    LoopIdsDiffer(i, j);
    LoopIdsDiffer(i, j + 1);
    LoopIdsDiffer(i + 1, j + 1);
    if i + 1 < j { LoopIdsDiffer(i + 1, j); }
    hide LoopId;
  }

  lemma LoopIsValid()
    ensures ValidTopology(Loop()) && Loop().screens != [] && Root(Loop()) == LoopId(0)
  {
    var ids := NodeIds(Loop().screens);
    forall i | 0 <= i < 5 ensures ids[i] == LoopId(i) && LoopId(i) in Elements(ids) && !Blank(ids[i]) {
      LoopIdIsKnown(i);
    }
    forall i, j | 0 <= i < j < 5 ensures ids[i] != ids[j] { LoopIdsDiffer(i, j); }
    forall i, j | 0 <= i < j < 4 ensures !Clash(LoopLink(i), LoopLink(j)) { LoopLinksAreApart(i, j); }
    hide LoopId, Clash, Blank;
    assert Loop().screens[0].thisDevice;
  }

  lemma {:induction false} LoopHangsTogether(i: nat)
    requires i < 5
    ensures Reachable(Loop(), LoopId(0), LoopId(i))
  {
    hide LoopId, LoopEdge;
    if i == 0 {
      var path := [LoopId(0)];
      assert IsPath(Loop(), path) && path[0] == LoopId(0) && path[|path| - 1] == LoopId(0);
    } else {
      LoopHangsTogether(i - 1);
      assert Joins(Loop().links[i - 1], LoopId(i - 1), LoopId(i));
      hide Reachable;
      ReachableStep(Loop(), LoopId(0), LoopId(i - 1), LoopId(i));
    }
  }

  lemma LoopEmbeds()
    ensures exists p :: Embeds(p, Loop())
  {
    hide LoopEdge;
    var p: Placement := map[LoopId(0) := LoopCell(0), LoopId(1) := LoopCell(1), LoopId(2) := LoopCell(2),
        LoopId(3) := LoopCell(3), LoopId(4) := LoopCell(4)];
    forall i, j | 0 <= i < j < 5 ensures LoopId(i) != LoopId(j) { LoopIdsDiffer(i, j); }
    hide LoopId;
    assert forall i | 0 <= i < 5 :: LoopId(i) in p && p[LoopId(i)] == LoopCell(i);
    forall i | 0 <= i < 4 ensures Respects(p, Loop().links[i]) { LoopStep(i); }
    assert Embeds(p, Loop());
  }

  lemma LoopStep(i: nat)
    requires i < 4
    ensures LoopCell(i + 1) == LoopCell(i).Plus(Delta(LoopEdge(i)))
  {
  }

  lemma LoopIsForced(p: Placement, i: nat)
    requires Embeds(p, Loop()) && i < 4
    ensures LoopId(i) in p && LoopId(i + 1) in p && p[LoopId(i + 1)] == p[LoopId(i)].Plus(Delta(LoopEdge(i)))
  {
    hide LoopId, LoopEdge;
    assert Respects(p, Loop().links[i]);
  }

  lemma LoopCloses(p: Placement)
    requires Embeds(p, Loop())
    ensures LoopId(0) in p && LoopId(4) in p && p[LoopId(0)] == p[LoopId(4)]
  {
    hide LoopId, Embeds;
    LoopIsForced(p, 0);
    LoopIsForced(p, 1);
    LoopIsForced(p, 2);
    LoopIsForced(p, 3);
  }

  /** A diagram can be complete although two of its screens lie on the same cell: for this loop an
      embedding exists, and every embedding puts the first and the last screen together. */
  lemma CompleteMayOverlap()
    ensures ValidTopology(Loop()) && Loop().screens != [] && HasEmbedding(Loop(), Root(Loop()))
    ensures LoopId(0) != LoopId(4) && !HasApartEmbedding(Loop())
    ensures forall p | Embeds(p, Loop()) :: LoopId(0) in p && LoopId(4) in p && p[LoopId(0)] == p[LoopId(4)]
  {
    LoopIsValid();
    LoopEmbeds();
    LoopIdsDiffer(0, 4);
    hide Reachable, ValidTopology, Embeds, Root, LoopId;
    forall id | id in Ids(Loop()) ensures Reachable(Loop(), LoopId(0), id) {
      var i :| 0 <= i < 5 && NodeIds(Loop().screens)[i] == id;
      LoopHangsTogether(i);
    }
    forall p | Embeds(p, Loop()) ensures LoopId(0) in p && LoopId(4) in p && p[LoopId(0)] == p[LoopId(4)] {
      LoopCloses(p);
    }
    LoopIdIsKnown(0);
    LoopIdIsKnown(4);
    hide Ids;
  }
}
