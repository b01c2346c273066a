/** What the topology router does over whole runs of timed motions and topology changes. */
module RouterRuns {
  import opened MachineInts
  import opened Wrappers
  import opened ScreenModel
  import opened EdgeBarriers
  import opened TopologyRouting

  datatype RouterEvent =
    | Motion(dx: I32, dy: I32, now: U64)
    | Replace(topology: ScreenTopology)
    | Reposition(id: ScreenId, x: I32, y: I32)

  // The outcome of a topology or position change; a rejected one leaves the router as it was.
  function Changed(r: RouterState, ev: RouterEvent): Result<RouterState, RouterFault>
    requires !ev.Motion?
  {
    if ev.Replace? then r.Replaced(ev.topology) else r.Positioned(ev.id, ev.x, ev.y)
  }

  function After(r: RouterState, ev: RouterEvent): (r': RouterState)
    requires r.Placed()
    ensures r'.Placed()
  {
    if ev.Motion? then
      RouteStaysPlaced(r, ev.dx, ev.dy, Some(ev.now));
      r.Route(ev.dx, ev.dy, Some(ev.now)).1
    else if Changed(r, ev).Success? then Changed(r, ev).value
    else r
  }

  predicate Crosses(r: RouterState, ev: RouterEvent)
    requires r.Placed()
  {
    ev.Motion? && r.Route(ev.dx, ev.dy, Some(ev.now)).0.Cross?
  }

  // The state before event `n`.
  function StateAt(r: RouterState, evs: seq<RouterEvent>, n: nat): (r': RouterState)
    requires r.Placed() && n <= |evs|
    ensures r'.Placed()
  {
    if n == 0 then r else After(StateAt(r, evs, n - 1), evs[n - 1])
  }

  // The linked edge, to an online screen, that a motion pushes against or arrives at.
  function Selected(r: RouterState, dx: I32, dy: I32): Option<Edge>
    requires r.Placed()
  {
    if r.Linked(r.Pushed(dx, dy)) then r.Pushed(dx, dy)
    else if r.Linked(r.Reached(dx, dy)) then r.Reached(dx, dy)
    else None
  }

  // ---------- What an observer who cannot see the barrier knows about an event ----------

  datatype Observation =
    | Rejected
    | Reset
    | Moved(selected: Option<Edge>, now: U64, crossed: bool)

  function Observe(r: RouterState, ev: RouterEvent): Observation
    requires r.Placed()
  {
    if ev.Motion? then Moved(Selected(r, ev.dx, ev.dy), ev.now, Crosses(r, ev))
    else if Changed(r, ev).Success? then Reset
    else Rejected
  }

  function Observations(r: RouterState, evs: seq<RouterEvent>, n: nat): (os: seq<Observation>)
    requires r.Placed() && n <= |evs|
    ensures |os| == n
  {
    if n == 0 then [] else Observations(r, evs, n - 1) + [Observe(StateAt(r, evs, n - 1), evs[n - 1])]
  }

  // The timestamp of the first motion of the unbroken run of motions selecting `e` that ends the
  // history; a crossing, another selection or a position or topology change breaks a run.
  function WaitingSince(os: seq<Observation>, e: Edge): Option<U64> {
    if os == [] then None
    else
      var o, earlier := os[|os| - 1], WaitingSince(os[..|os| - 1], e);
      match o
      case Rejected => earlier
      case Reset => None
      case Moved(selected, now, crossed) =>
        if crossed || selected != Some(e) then None
        else if earlier.Some? then earlier
        else Some(now)
  }

  // ---------- The barrier over one event ----------

  predicate OnEdge(r: RouterState, e: Edge)
    requires r.Placed()
  {
    match e
    case Left => r.x == 0
    case Right => r.x == r.Size().width - 1
    case Top => r.y == 0
    case Bottom => r.y == r.Size().height - 1
  }

  // A pending wait stands on the linked edge it is for.
  predicate StandsAtEdge(r: RouterState)
    requires r.Placed()
  {
    r.barrier.edge.Some? ==> OnEdge(r, r.barrier.edge.value) && r.Linked(r.barrier.edge)
  }

  // In timed runs a barrier is idle or knows when its wait began.
  predicate Timed(b: Barrier<Edge>) {
    b == Idle() || (b.edge.Some? && b.since.Some? && b.distance == 0)
  }

  function NextBarrier(b: Barrier<Edge>, o: Observation): Barrier<Edge> {
    match o
    case Rejected => b
    case Reset => Idle()
    case Moved(selected, now, crossed) =>
      if crossed || selected.None? then Idle()
      else if b.edge == selected then b
      else Barrier(selected, 0, Some(now))
  }

  // A motion that selects the edge the cursor is already on must be pushing against it.
  lemma SelectedOnEdgeIsPushed(r: RouterState, dx: I32, dy: I32, e: Edge)
    requires r.Placed() && OnEdge(r, e) && Selected(r, dx, dy) == Some(e)
    ensures r.Pushed(dx, dy) == Some(e)
  {
  }

  // A motion that selects an edge without crossing it leaves the cursor on that edge.
  lemma SelectedEdgeIsReached(r: RouterState, dx: I32, dy: I32, e: Edge)
    requires r.Placed() && Selected(r, dx, dy) == Some(e)
    ensures OnEdge(r.MovedBy(dx, dy), e)
  {
  }

  // A crossing needs the edge selected now to be the edge already waited for.
  lemma CrossingStep(r: RouterState, dx: I32, dy: I32, now: U64)
    requires r.Placed() && StandsAtEdge(r) && Timed(r.barrier)
    ensures var sel := Selected(r, dx, dy);
            var (route, next) := r.Route(dx, dy, Some(now));
            && (route.Cross? <==>
                  sel.Some? && r.barrier.edge == sel && now - r.barrier.since.value >= 250_000)
            && (route.Cross? ==> next == r.Entered(sel.value, dx, dy))
            && (!route.Cross? ==>
                  next == r.MovedBy(dx, dy).(barrier := NextBarrier(r.barrier, Moved(sel, now, false))))
  {
    var sel := Selected(r, dx, dy);
    if sel.Some? && r.barrier.edge == sel {
      SelectedOnEdgeIsPushed(r, dx, dy, sel.value);
    }
  }

  lemma MotionKeepsEdge(r: RouterState, dx: I32, dy: I32, now: U64)
    requires r.Placed() && StandsAtEdge(r) && Timed(r.barrier)
    ensures var (route, next) := r.Route(dx, dy, Some(now));
            && next.Placed() && StandsAtEdge(next)
            && next.barrier == NextBarrier(r.barrier, Moved(Selected(r, dx, dy), now, route.Cross?))
  {
    CrossingStep(r, dx, dy, now);
    var sel, next := Selected(r, dx, dy), r.Route(dx, dy, Some(now)).1;
    if sel.Some? {
      SelectedEdgeIsReached(r, dx, dy, sel.value);
    }
    hide RouterState.Route, RouterState.Pushed, RouterState.Reached, ScaleAxis;
  }

  lemma EventStep(r: RouterState, ev: RouterEvent)
    requires r.Placed() && StandsAtEdge(r) && Timed(r.barrier)
    ensures After(r, ev).barrier == NextBarrier(r.barrier, Observe(r, ev)) && StandsAtEdge(After(r, ev))
    ensures Crosses(r, ev) ==>
              ev.Motion? && r.barrier.edge.Some? && ev.now - r.barrier.since.value >= 250_000
  {
    if ev.Motion? {
      CrossingStep(r, ev.dx, ev.dy, ev.now);
      MotionKeepsEdge(r, ev.dx, ev.dy, ev.now);
    }
    hide RouterState.Route, RouterState.Pushed, RouterState.Reached, Selected;
  }

  // ---------- Whole runs ----------

  lemma HistoryStep(os: seq<Observation>, o: Observation, b: Barrier<Edge>, e: Edge)
    requires Timed(b) && WaitingSince(os, e) == if b.edge == Some(e) then b.since else None
    ensures var b' := NextBarrier(b, o);
            WaitingSince(os + [o], e) == if b'.edge == Some(e) then b'.since else None
  {
  }

  // In every timed run the barrier is exactly the memory of the current unbroken run of motions,
  // and it is pending only on a linked edge that the cursor stands on.
  lemma {:induction false} BarrierIsHistory(r: RouterState, evs: seq<RouterEvent>, n: nat)
    requires r.Placed() && r.barrier == Idle() && n <= |evs|
    ensures var s := StateAt(r, evs, n);
            && StandsAtEdge(s) && Timed(s.barrier)
            && forall e :: WaitingSince(Observations(r, evs, n), e) == if s.barrier.edge
                 == Some(e) then s.barrier.since else None
  {
    hide After, Observe, StandsAtEdge, WaitingSince;
    if n == 0 {
      IdleIsNoHistory(r);
    } else {
      BarrierIsHistory(r, evs, n - 1);
      var s, ev := StateAt(r, evs, n - 1), evs[n - 1];
      EventStep(s, ev);
      forall e ensures WaitingSince(Observations(r, evs, n), e)
                       == if After(s, ev).barrier.edge == Some(e) then After(s, ev).barrier.since else None {
        HistoryStep(Observations(r, evs, n - 1), Observe(s, ev), s.barrier, e);
      }
    }
  }

  lemma IdleIsNoHistory(r: RouterState)
    requires r.Placed() && r.barrier == Idle()
    ensures StandsAtEdge(r)
    ensures forall e :: WaitingSince([], e) == None
  {
  }

  /** Exact timed crossing: the cursor leaves through `e` if and only if every motion of an unbroken
      run selected `e` and the run has lasted for the switch delay of 250 ms. */
  lemma TimedCrossingExact(r: RouterState, evs: seq<RouterEvent>, n: nat)
    requires r.Placed() && r.barrier == Idle() && n < |evs| && evs[n].Motion?
    ensures var s, ev := StateAt(r, evs, n), evs[n];
            var sel, history := Selected(s, ev.dx, ev.dy), Observations(r, evs, n);
            && (Crosses(s, ev) <==>
                  && sel.Some?
                  && WaitingSince(history, sel.value).Some?
                  && ev.now - WaitingSince(history, sel.value).value >= 250_000)
            && (Crosses(s, ev) ==>
                  && OnEdge(s, sel.value)
                  && StateAt(r, evs, n + 1) == s.Entered(sel.value, ev.dx, ev.dy)
                  && IsOnline(s.topology, StateAt(r, evs, n + 1).active))
  {
    BarrierIsHistory(r, evs, n);
    CrossingStep(StateAt(r, evs, n), evs[n].dx, evs[n].dy, evs[n].now);
    hide RouterState.Route, Selected, OnEdge, ScaleAxis;
  }

  // ---------- How often the cursor can cross ----------

  function Crossings(r: RouterState, evs: seq<RouterEvent>, n: nat): nat
    requires r.Placed() && n <= |evs|
  {
    if n == 0 then 0
    else Crossings(r, evs, n - 1) + if Crosses(StateAt(r, evs, n - 1), evs[n - 1]) then 1 else 0
  }

  // The latest timestamp among the first `n` events, or `start` if they hold no motion.
  function LatestTime(evs: seq<RouterEvent>, n: nat, start: U64): U64
    requires n <= |evs|
  {
    if n == 0 then start
    else if evs[n - 1].Motion? then evs[n - 1].now
    else LatestTime(evs, n - 1, start)
  }

  predicate Nondecreasing(evs: seq<RouterEvent>) {
    forall i, j | 0 <= i < j < |evs| && evs[i].Motion? && evs[j].Motion? :: evs[i].now <= evs[j].now
  }

  lemma LatestTimeIsReached(evs: seq<RouterEvent>, n: nat, start: U64)
    requires n <= |evs|
    ensures LatestTime(evs, n, start) == start
            || exists i :: 0 <= i < n && evs[i].Motion? && evs[i].now == LatestTime(evs, n, start)
  {
  }

  // The time already paid for: a pending wait cannot have begun before the crossings so far.
  function Paid(b: Barrier<Edge>, latest: U64): U64 {
    if b.since.Some? then b.since.value else latest
  }

  lemma {:induction false} CrossingsAreSpaced(r: RouterState, evs: seq<RouterEvent>, n: nat, start: U64)
    requires r.Placed() && r.barrier == Idle() && n <= |evs| && Nondecreasing(evs)
    requires forall i | 0 <= i < |evs| && evs[i].Motion? :: start <= evs[i].now
    ensures var b, latest := StateAt(r, evs, n).barrier, LatestTime(evs, n, start);
            250_000 * Crossings(r, evs, n) <= Paid(b, latest) - start && Paid(b, latest) <= latest
  {
    hide After, StandsAtEdge, Crosses, Selected;
    if n > 0 {
      CrossingsAreSpaced(r, evs, n - 1, start);
      LatestTimeIsReached(evs, n - 1, start);
      BarrierIsHistory(r, evs, n - 1);
      EventStep(StateAt(r, evs, n - 1), evs[n - 1]);
    }
  }

  // The timestamp of the first motion, if there is one.
  function FirstTime(evs: seq<RouterEvent>): Option<U64> {
    if evs == [] then None else if evs[0].Motion? then Some(evs[0].now) else FirstTime(evs[1..])
  }

  lemma {:induction false} FirstTimeIsFirst(evs: seq<RouterEvent>)
    requires Nondecreasing(evs)
    ensures FirstTime(evs).None? <==> forall i | 0 <= i < |evs| :: !evs[i].Motion?
    ensures FirstTime(evs).Some? ==> forall i | 0 <= i < |evs| && evs[i].Motion? :: FirstTime(evs).value <= evs[i].now
  {
    if evs != [] && !evs[0].Motion? {
      assert forall i | 0 <= i < |evs[1..]| :: evs[1..][i] == evs[i + 1];
      FirstTimeIsFirst(evs[1..]);
      assert forall i | 1 <= i < |evs| :: evs[i] == evs[1..][i - 1];
    }
  }

  lemma {:induction false} NoMotionsNoCrossings(r: RouterState, evs: seq<RouterEvent>, n: nat)
    requires r.Placed() && n <= |evs| && forall i | 0 <= i < |evs| :: !evs[i].Motion?
    ensures Crossings(r, evs, n) == 0
  {
    hide After;
    if n > 0 {
      NoMotionsNoCrossings(r, evs, n - 1);
    }
  }

  /** Crossing rate: from an idle barrier, however topologies and positions change before, between and
      after the motions, the crossings of a run are bounded by the time from its first motion to its
      last, divided by the switch delay; without motions there are none. */
  lemma CrossingRateBound(r: RouterState, evs: seq<RouterEvent>)
    requires r.Placed() && r.barrier == Idle() && Nondecreasing(evs)
    ensures match FirstTime(evs)
            case None => Crossings(r, evs, |evs|) == 0
            case Some(first) =>
              250_000 * Crossings(r, evs, |evs|) <= LatestTime(evs, |evs|, first) - first
  {
    hide After, StandsAtEdge, Crosses, Selected, Crossings, StateAt, LatestTime, RouterState.Route;
    FirstTimeIsFirst(evs);
    if FirstTime(evs).None? {
      NoMotionsNoCrossings(r, evs, |evs|);
    } else {
      CrossingsAreSpaced(r, evs, |evs|, FirstTime(evs).value);
    }
  }
}
