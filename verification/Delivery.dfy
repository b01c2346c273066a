/** What reaches a client: over every interleaving its machine does what the host meant it to, in order. */
module Deliveries {
  import opened MachineInts
  import opened Wrappers
  import opened ScreenModel
  import opened InputModel
  import opened Sequences
  import opened TopologyRouting
  import opened DesktopSessions
  import opened InputOwnership
  import opened OwnershipRuns
  import opened InputHistories
  import opened WireProtocol
  import opened HostClient
  import opened Composition

  // ---------- Orders on the wire ----------

  // What a message orders its client to do; heartbeats and reports order nothing.
  function OrderIn(m: ReliableEvent): seq<Order> {
    match m
    case Input(_, _, _, _) => if DecodeInput(m).Success? then [Inject(DecodeInput(m).value)] else []
    case EnterScreenAt(x, y) => [PlaceCursor(x, y)]
    case ReleaseAll => [LetGo]
    case _ => []
  }

  function OrdersIn(queue: seq<ReliableEvent>): seq<Order>
    decreases queue
  {
    if queue == [] then [] else OrderIn(queue[0]) + OrdersIn(queue[1..])
  }

  lemma {:induction false} OrdersAppend(queue: seq<ReliableEvent>, m: ReliableEvent)
    ensures OrdersIn(queue + [m]) == OrdersIn(queue) + OrderIn(m)
    decreases queue
  {
    if queue == [] {
      assert queue + [m] == [m];
    } else {
      assert (queue + [m])[1..] == queue[1..] + [m];
      OrdersAppend(queue[1..], m);
    }
  }

  // ---------- Obeying orders ----------

  function HeldOn(held: set<HeldInput>, order: Order): set<HeldInput> {
    match order
    case Inject(e) => Observe(held, e)
    case PlaceCursor(_, _) => held
    case LetGo => {}
  }

  // What is held after obeying all orders in turn.
  function HeldBy(held: set<HeldInput>, orders: seq<Order>): set<HeldInput>
    decreases orders
  {
    if orders == [] then held else HeldBy(HeldOn(held, orders[0]), orders[1..])
  }

  // A machine that is to let go releases what it holds, input by input in ascending order.
  function Obey(held: set<HeldInput>, order: Order): (effects: seq<SessionEffect>)
    ensures order.LetGo? ==>
              && |effects| == |Ordered(held)|
              && forall i | 0 <= i < |effects| :: effects[i] == InjectLocal(Ordered(held)[i].Event(Released))
  {
    match order
    case Inject(e) => [InjectLocal(e)]
    case PlaceCursor(x, y) => [SetLocalCursor(x, y)]
    case LetGo => seq(|Ordered(held)|, i requires 0 <= i < |Ordered(held)| =>
                    InjectLocal(Ordered(held)[i].Event(Released)))
  }

  function Obeyed(held: set<HeldInput>, orders: seq<Order>): seq<SessionEffect>
    decreases orders
  {
    if orders == [] then [] else Obey(held, orders[0]) + Obeyed(HeldOn(held, orders[0]), orders[1..])
  }

  lemma {:induction false} ObeyedConcat(held: set<HeldInput>, a: seq<Order>, b: seq<Order>)
    ensures Obeyed(held, a + b) == Obeyed(held, a) + Obeyed(HeldBy(held, a), b)
    ensures HeldBy(held, a + b) == HeldBy(HeldBy(held, a), b)
    decreases a
  {
    hide Obey, HeldOn;
    if a == [] {
      assert a + b == b;
    } else {
      assert (a + b)[1..] == a[1..] + b;
      ObeyedConcat(HeldOn(held, a[0]), a[1..], b);
    }
  }

  lemma {:induction false} LocalEventsExact(hs: seq<HeldInput>, state: ButtonState)
    ensures |LocalEvents(hs, state)| == |hs|
    ensures forall i | 0 <= i < |hs| :: LocalEvents(hs, state)[i] == InjectLocal(hs[i].Event(state))
  {
    if hs != [] {
      LocalEventsExact(hs[1..], state);
    }
  }

  // ---------- From effects to orders on the wire ----------

  // An effect of a legacy session that its only peer can be sent.
  predicate SoloDeliverable(effect: SessionEffect) {
    match effect
    case SendRemote(e) => Canonical(e)
    case SendScreen(_, _) => false
    case SendScreenMotion(_, _) => false
    case EnterScreen(_, _, _) => false
    case ReleaseScreen(_) => false
    case _ => true
  }

  // The effect can be carried out, and `d` is who serves this party.
  predicate Carriable(peers: Peers, t: ScreenTopology, d: DeviceId, p: Party, effect: SessionEffect) {
    || (p == ClientOf(d) && d in peers && NamedByOwner(t) && Deliverable(peers.Keys, t, effect))
    || (p == OnlyClient && peers.Keys == {d} && SoloDeliverable(effect))
  }

  // The connection after these orders have been queued for its client.
  predicate Queued(c: Connection, c': Connection, orders: seq<Order>) {
    && c'.client == c.client && c'.performed == c.performed
    && OrdersIn(c'.queue) == OrdersIn(c.queue) + orders
  }

  lemma SendOrders(peers: Peers, owner: DeviceId, e: InputEvent, d: DeviceId)
    requires owner in peers && d in peers && Canonical(e)
    ensures var (peers', fault) := SendInput(peers, owner, e);
            && fault.None? && peers'.Keys == peers.Keys
            && Queued(peers[d], peers'[d], if d == owner then [Inject(e)] else [])
  {
    var sequence := NextSequence(peers[owner].sequence);
    WireRoundTripExact(sequence, e);
    OrdersAppend(peers[owner].queue, EncodeInput(sequence, e).value);
    hide OrdersIn, EncodeInput, DecodeInput, Canonical;
    assert SendInput(peers, owner, e).0.Keys == peers.Keys;
  }

  lemma EnqueueOrders(peers: Peers, owner: DeviceId, m: ReliableEvent, d: DeviceId)
    requires owner in peers && d in peers
    ensures var peers' := Enqueue(peers, owner, m);
            && peers'.Keys == peers.Keys
            && Queued(peers[d], peers'[d], if d == owner then OrderIn(m) else [])
  {
    OrdersAppend(peers[owner].queue, m);
    hide OrdersIn, OrderIn;
    assert Enqueue(peers, owner, m).Keys == peers.Keys;
  }

  /** Executing one effect queues for each client exactly what the effect tells it. */
  lemma EffectOrders(peers: Peers, t: ScreenTopology, d: DeviceId, p: Party, effect: SessionEffect)
    requires Carriable(peers, t, d, p, effect)
    ensures var (peers', fault) := ExecutedOne(peers, t, effect);
            && fault.None? && peers'.Keys == peers.Keys
            && Queued(peers[d], peers'[d], ToldBy(p, effect))
  {
    hide Canonical, SendInput, Enqueue, OrdersIn, OwnerOf;
    if p.OnlyClient? {
      assert |peers| == |peers.Keys| == 1;
      OnlyPeerIsTheOne(peers, d);
      match effect
      case SendRemote(e) => SendOrders(peers, d, e, d);
      case EnterPeer(x, y) => EnqueueOrders(peers, d, EnterScreenAt(x, y), d);
      case ReleasePeer => EnqueueOrders(peers, d, ReleaseAll, d);
      case _ =>
    } else if effect.SendScreen? || effect.SendScreenMotion? || effect.EnterScreen? || effect.ReleaseScreen? {
      OwnerIsDevice(t, effect.screenId);
      var owner := OwnerOf(effect.screenId);
      if owner in peers {
        match effect
        case SendScreen(_, e) => SendOrders(peers, owner, e, d);
        case EnterScreen(_, x, y) => EnqueueOrders(peers, owner, EnterScreenAt(x, y), d);
        case ReleaseScreen(_) => EnqueueOrders(peers, owner, ReleaseAll, d);
        case _ =>
      }
    }
  }

  // What one effect runs into: a screen nobody knows, a device that is not connected, more or fewer than one
  // peer, or a scroll along both axes. Releasing a side never fails.
  function FaultOf(peers: Peers, t: ScreenTopology, effect: SessionEffect): Option<HostFault> {
    match effect
    case SendScreen(id, e) => if Unreachable(peers, t, id).Some? then Unreachable(peers, t, id) else Unencodable(e)
    case SendScreenMotion(id, _) => Unreachable(peers, t, id)
    case EnterScreen(id, _, _) => Unreachable(peers, t, id)
    case SendRemote(e) => if |peers| == 1 then Unencodable(e) else Some(NotExactlyOnePeer)
    case SendRemoteMotion(_) => if |peers| == 1 then None else Some(NotExactlyOnePeer)
    case EnterPeer(_, _) => if |peers| == 1 then None else Some(NotExactlyOnePeer)
    case _ => None
  }

  function Unreachable(peers: Peers, t: ScreenTopology, id: ScreenId): Option<HostFault> {
    if !Knows(t, id) then Some(ScreenNotInTopology(id))
    else if FindScreen(t.screens, id).value.deviceId in peers then None
    else Some(DeviceNotConnected(FindScreen(t.screens, id).value.deviceId))
  }

  function Unencodable(e: InputEvent): Option<HostFault> {
    if e.ScrollEvent? && e.horizontal != 0 && e.vertical != 0 then Some(NotEncodable(CombinedScroll)) else None
  }

  /** Exactly which effects fail, over any peers and any topology, and how; a failure queues nothing. */
  lemma EffectFailsExactly(peers: Peers, t: ScreenTopology, effect: SessionEffect, d: DeviceId)
    ensures ExecutedOne(peers, t, effect).1 == FaultOf(peers, t, effect)
    ensures FaultOf(peers, t, effect).Some? && d in peers ==>
              d in ExecutedOne(peers, t, effect).0
              && ExecutedOne(peers, t, effect).0[d].queue == peers[d].queue
  {
  }

  predicate AllCarriable(peers: Peers, t: ScreenTopology, d: DeviceId, p: Party, effects: seq<SessionEffect>) {
    forall i | 0 <= i < |effects| :: Carriable(peers, t, d, p, effects[i])
  }

  lemma {:induction false} EffectsOrder(peers: Peers, t: ScreenTopology, d: DeviceId, p: Party,
                                        effects: seq<SessionEffect>)
    requires d in peers && AllCarriable(peers, t, d, p, effects)
    ensures var (peers', fault) := Executed(peers, t, effects);
            && fault.None? && d in peers'
            && Queued(peers[d], peers'[d], Told(p, effects))
    decreases effects
  {
    hide ExecutedOne, OrdersIn, ToldBy, Deliverable, SoloDeliverable, NamedByOwner;
    if effects != [] {
      assert Carriable(peers, t, d, p, effects[0]);
      EffectOrders(peers, t, d, p, effects[0]);
      var peers' := ExecutedOne(peers, t, effects[0]).0;
      assert forall i | 0 <= i < |effects[1..]| :: effects[1..][i] == effects[i + 1];
      EffectsOrder(peers', t, d, p, effects[1..]);
    }
  }

  // ---------- What a client has done and will do ----------

  // Everything but motion, which does not come over the stream.
  function Still(effects: seq<SessionEffect>): seq<SessionEffect> {
    Retain((e: SessionEffect) => !e.InjectLocalMotion?, effects)
  }

  // What the client has done, and what it will do once its stream is drained.
  function InAll(c: Connection): seq<SessionEffect> {
    Still(c.performed) + Obeyed(c.client.localInjected, OrdersIn(c.queue))
  }

  // It is what follows from these orders, obeyed in turn by a machine that held nothing.
  predicate Accounted(c: Connection, given: seq<Order>) {
    && InAll(c) == Obeyed({}, given)
    && HeldBy(c.client.localInjected, OrdersIn(c.queue)) == HeldBy({}, given)
  }

  lemma QueuedAccounted(c: Connection, c': Connection, given: seq<Order>, orders: seq<Order>)
    requires Accounted(c, given) && Queued(c, c', orders)
    ensures Accounted(c', given + orders)
  {
    ObeyedConcat({}, given, orders);
    ObeyedConcat(c.client.localInjected, OrdersIn(c.queue), orders);
    hide Obeyed, HeldBy, OrdersIn, Still;
  }

  // What a client does on receiving a message is what the order in it asks for.
  lemma MessageObeyed(c: Connection, m: ReliableEvent)
    requires ClientSound(c) && Acceptable(m) && ClientEvent(m).Some?
    ensures |OrderIn(m)| == 1
    ensures var (client, effects) := c.client.Handle(ClientEvent(m).value);
            && effects == Obey(c.client.localInjected, OrderIn(m)[0])
            && client.localInjected == HeldOn(c.client.localInjected, OrderIn(m)[0])
            && Still(effects) == effects
  {
    LocalEventsExact(Ordered(c.client.localInjected), Released);
    var effects := c.client.Handle(ClientEvent(m).value).1;
    hide DecodeInput, Observe, Ordered, LocalEvents;
    RetainAll((e: SessionEffect) => !e.InjectLocalMotion?, effects);
  }

  lemma TakeAccounted(c: Connection, given: seq<Order>)
    requires ClientSound(c) && c.queue != [] && Accounted(c, given)
    ensures Accounted(Take(c.(queue := c.queue[1..]), c.queue[0]), given)
  {
    hide SessionState.Handle, Accounted, DecodeInput;
    var m, rest := c.queue[0], c.(queue := c.queue[1..]);
    assert Acceptable(m) && ClientSound(rest) by {
      assert forall i | 0 <= i < |rest.queue| :: rest.queue[i] == c.queue[i + 1];
    }
    assert OrdersIn(c.queue) == OrderIn(m) + OrdersIn(rest.queue);
    if ClientEvent(m).Some? {
      MessageObeyed(c, m);
      OrderTaken(c, rest, m, c.client.Handle(ClientEvent(m).value).0, c.client.Handle(ClientEvent(m).value).1, given);
    } else {
      assert OrderIn(m) == [] && OrdersIn(c.queue) == OrdersIn(rest.queue);
      SameAccounted(c, rest, given);
    }
    hide OrderIn, OrdersIn, ClientSound, Acceptable, ClientEvent;
  }

  lemma SameAccounted(c: Connection, c': Connection, given: seq<Order>)
    requires Accounted(c, given) && OrdersIn(c'.queue) == OrdersIn(c.queue)
    requires c'.client.localInjected == c.client.localInjected && c'.performed == c.performed
    ensures Accounted(c', given)
  {
    hide OrdersIn, Obeyed, HeldBy, Retain;
  }

  // Obeying the first order now leaves the same in all.
  lemma OrderTaken(c: Connection, rest: Connection, m: ReliableEvent, client: SessionState,
                   effects: seq<SessionEffect>, given: seq<Order>)
    requires Accounted(c, given) && rest.performed == c.performed && |OrderIn(m)| == 1
    requires OrdersIn(c.queue) == OrderIn(m) + OrdersIn(rest.queue)
    requires effects == Obey(c.client.localInjected, OrderIn(m)[0]) && Still(effects) == effects
    requires client.localInjected == HeldOn(c.client.localInjected, OrderIn(m)[0])
    ensures Accounted(rest.(client := client, performed := c.performed + effects), given)
  {
    RetainConcat((e: SessionEffect) => !e.InjectLocalMotion?, c.performed, effects);
    hide OrderIn, OrdersIn, Obey, HeldOn, Retain;
    assert OrderIn(m) == [OrderIn(m)[0]];
  }

  lemma MotionIsNotStill(dx: I32, dy: I32)
    ensures Still([]) == [] && Still([InjectLocalMotion(dx, dy)]) == []
  {
    assert [InjectLocalMotion(dx, dy)][1..] == [];
  }

  lemma MotionAccounted(c: Connection, m: Motion, given: seq<Order>)
    requires ClientSound(c) && Accounted(c, given)
    ensures Accounted(Receive(c, MotionArrived(m)), given)
  {
    hide Obeyed, HeldBy, OrdersIn, DecodeInput, Understood;
    var (client, effects) := c.client.Handle(MotionArrived(m));
    assert client.localInjected == c.client.localInjected;
    MotionIsNotStill(m.dx, m.dy);
    assert Still(effects) == [];
    hide SessionState.Handle, Retain;
    RetainConcat((e: SessionEffect) => !e.InjectLocalMotion?, c.performed, effects);
    assert Still(c.performed + effects) == Still(c.performed);
  }

  // ---------- Steps of the system ----------

  // What the host's session is asked to do in a step, if anything.
  function HostEventOf(sys: System, ev: SystemEvent): Option<HostEvent> {
    match ev
    case Captured(event) => Some(Handle(event))
    case Stop => if sys.capturing then Some(Handle(StopRequested)) else None
    case Connect(_, t) => Some(Replace(t))
    case Disconnect(_, t) => Some(Replace(t))
    case Update(t) => Some(Replace(t))
    case _ => None
  }

  // What the step ought to tell the client of device `d`.
  ghost function OrdersDue(sys: System, ev: SystemEvent, d: DeviceId): seq<Order>
    requires Sound(sys) && Enabled(sys, ev)
  {
    var e := HostEventOf(sys, ev);
    if e.None? then []
    else
      StepTold(sys.host, e.value, ClientOf(d));
      Expected(sys.host, e.value, ClientOf(d))
  }

  // The host's session takes exactly that step.
  lemma HostFollows(sys: System, ev: SystemEvent)
    requires Sound(sys) && Enabled(sys, ev) && WellTyped(sys) && Next(sys, ev).Success?
    ensures var e := HostEventOf(sys, ev);
            Next(sys, ev).value.host == if e.Some? then Step(sys.host, e.value).0 else sys.host
  {
    hide Executed, Take, Receive, SessionState.ReplaceTopology, SessionState.Handle, Sound;
  }

  lemma DeliverableCarriable(peers: Peers, t: ScreenTopology, d: DeviceId, effects: seq<SessionEffect>)
    requires d in peers && NamedByOwner(t) && AllDeliverable(peers.Keys, t, effects)
    ensures AllCarriable(peers, t, d, ClientOf(d), effects)
  {
    hide NamedByOwner, Deliverable;
  }

  lemma HandledDeliverable(sys: System, ev: SessionEvent)
    requires Sound(sys) && (ev.PhysicalInput? || ev.PhysicalMotion? || ev.StopRequested?)
    requires ev.PhysicalInput? ==> Canonical(ev.event)
    requires Attended(sys.host.Handle(ev).0, sys.peers.Keys)
    ensures AllDeliverable(sys.peers.Keys, sys.topology, sys.host.Handle(ev).1)
  {
    var t, devices := sys.topology, sys.peers.Keys;
    assert Step(sys.host, Handle(ev)) == sys.host.Handle(ev);
    hide SessionState.Handle, Step, Consistent, Bounded, RoutesOnline, CanonicalHeld, NamedByOwner, Attended,
      AllBenign, AllReachOnline, AllDeliverable, DeviceFold, Due, PeersSound, Canonical;
    var (host', effects) := sys.host.Handle(ev);
    HostKeeps(sys.host, t, devices, Handle(ev));
    HandledFold(sys.host, t, devices, ev, "");
    BenignIsDeliverable(host', t, devices, effects);
  }

  lemma HandledAccounted(sys: System, ev: SessionEvent, d: DeviceId, given: seq<Order>)
    requires Sound(sys) && (ev.PhysicalInput? || ev.PhysicalMotion? || ev.StopRequested?)
    requires ev.PhysicalInput? ==> Canonical(ev.event)
    requires Handled(sys, ev).Success? && d in sys.peers && Accounted(sys.peers[d], given)
    ensures d in Handled(sys, ev).value.peers
    ensures !Step(sys.host, Handle(ev)).0.routing.NoRouting?
    ensures Accounted(Handled(sys, ev).value.peers[d], given + Expected(sys.host, Handle(ev), ClientOf(d)))
  {
    HandledExact(sys, ev);
    HandledDeliverable(sys, ev);
    var effects := sys.host.Handle(ev).1;
    StepTold(sys.host, Handle(ev), ClientOf(d));
    hide SessionState.Handle, Expected, Attended, AllDeliverable, PeersSound, Consistent, Bounded, RoutesOnline,
      CanonicalHeld, Executed, Accounted, Queued, AllCarriable, Told, Canonical, NamedByOwner;
    DeliverableCarriable(sys.peers, sys.topology, d, effects);
    EffectsOrder(sys.peers, sys.topology, d, ClientOf(d), effects);
    QueuedAccounted(sys.peers[d], Executed(sys.peers, sys.topology, effects).0[d], given, Told(ClientOf(d), effects));
  }

  lemma ReplacedAccounted(sys: System, peers: Peers, t: ScreenTopology, d: DeviceId, given: seq<Order>)
    requires Sound(sys) && NamedByOwner(t) && Replaced(sys, peers, t).Success?
    requires d in peers && Accounted(peers[d], given)
    ensures d in Replaced(sys, peers, t).value.peers
    ensures !Step(sys.host, Replace(t)).0.routing.NoRouting?
    ensures Accounted(Replaced(sys, peers, t).value.peers[d], given + Expected(sys.host, Replace(t), ClientOf(d)))
  {
    var effects := sys.host.ReplaceTopology(t).value.1;
    ReplaceDeliverable(sys.host, t, peers.Keys);
    StepTold(sys.host, Replace(t), ClientOf(d));
    hide SessionState.ReplaceTopology, Expected, AllDeliverable, PeersSound, Consistent, Bounded, RoutesOnline,
      CanonicalHeld, Executed, Accounted, Queued, AllCarriable, Told, Canonical, NamedByOwner;
    DeliverableCarriable(peers, t, d, effects);
    EffectsOrder(peers, t, d, ClientOf(d), effects);
    QueuedAccounted(peers[d], Executed(peers, t, effects).0[d], given, Told(ClientOf(d), effects));
  }

  // Heartbeats and reports order nothing.
  lemma QuietAccounted(c: Connection, c': Connection, m: ReliableEvent, given: seq<Order>)
    requires Accounted(c, given) && (m.Heartbeat? || m.ScreenInventory?)
    requires c'.queue == c.queue + [m] && c'.client == c.client && c'.performed == c.performed
    ensures Accounted(c', given)
  {
    OrdersAppend(c.queue, m);
    hide OrdersIn, Obeyed, HeldBy;
    assert OrdersIn(c.queue) + [] == OrdersIn(c.queue);
  }

  // Whoever is connected after a step has just connected or was so before.
  lemma StillConnected(sys: System, ev: SystemEvent, d: DeviceId)
    requires Sound(sys) && Enabled(sys, ev) && Admissible(ev) && WellTyped(sys) && Next(sys, ev).Success?
    requires d in Next(sys, ev).value.peers
    ensures if ev.Connect? && ev.device == d then Next(sys, ev).value.peers[d] == NEW_CONNECTION else d in sys.peers
  {
    hide SessionState.Handle, SessionState.ReplaceTopology, HostSound, Take, Receive, NamedByOwner, AllOffline,
      Executed;
    if ev.Captured? {
      ExecutedKeys(sys.peers, sys.topology, sys.host.Handle(ev.event).1);
    } else if ev.Stop? {
      ExecutedKeys(sys.peers, sys.topology, sys.host.Handle(StopRequested).1);
    } else if TopologyOf(ev).Some? && sys.host.ReplaceTopology(TopologyOf(ev).value).Success? {
      var peers := if ev.Disconnect? then sys.peers - {ev.device} else sys.peers;
      ExecutedKeys(peers, TopologyOf(ev).value, sys.host.ReplaceTopology(TopologyOf(ev).value).value.1);
    }
  }

  lemma HostStepAccounted(sys: System, ev: SystemEvent, d: DeviceId, given: seq<Order>)
    requires Sound(sys) && Enabled(sys, ev) && Admissible(ev) && WellTyped(sys) && Next(sys, ev).Success?
    requires HostEventOf(sys, ev).Some? && d in Next(sys, ev).value.peers && !(ev.Connect? && ev.device == d)
    requires d in sys.peers && Accounted(sys.peers[d], given)
    ensures Accounted(Next(sys, ev).value.peers[d], given + OrdersDue(sys, ev, d))
  {
    StillConnected(sys, ev, d);
    hide Accounted, Expected, SessionState.Handle, SessionState.ReplaceTopology, Executed, Sound, Replaced, Handled,
      NamedByOwner, AllOffline, Step, WellTyped;
    if TopologyOf(ev).None? {
      HandledAccounted(sys, HostEventOf(sys, ev).value.event, d, given);
    } else {
      var t, peers := TopologyOf(ev).value, if ev.Disconnect? then sys.peers - {ev.device} else sys.peers;
      ReplacedKeys(sys, peers, t);
      ReplacedAccounted(sys, peers, t, d, given);
    }
  }

  /** One step of anybody: what a connected client has done and will do grows by what the step ought to
      tell it, and by nothing else. */
  lemma StepAccounted(sys: System, ev: SystemEvent, d: DeviceId, given: seq<Order>)
    requires Sound(sys) && Enabled(sys, ev) && Admissible(ev) && WellTyped(sys) && Next(sys, ev).Success?
    requires d in Next(sys, ev).value.peers && !(ev.Connect? && ev.device == d)
    requires d in sys.peers && Accounted(sys.peers[d], given)
    ensures Accounted(Next(sys, ev).value.peers[d], given + OrdersDue(sys, ev, d))
  {
    hide Accounted, Expected, SessionState.Handle, SessionState.ReplaceTopology, Executed, HostSound, Take, Receive,
      Replaced, Handled, NamedByOwner, AllOffline, Step;
    if HostEventOf(sys, ev).Some? {
      HostStepAccounted(sys, ev, d, given);
    } else {
      assert given + [] == given;
      var c := sys.peers[d];
      match ev
      case Stop =>
      case Deliver(other) => if d == other { TakeAccounted(c, given); }
      case Datagram(other, m) => if d == other { MotionAccounted(c, m, given); }
      case Beat => QuietAccounted(c, Beaten(c), Heartbeat(NextSequence(c.heartbeat)), given);
      case Report(screens) => QuietAccounted(c, Informed(c, screens), ScreenInventory(screens), given);
    }
  }

  // ---------- Whole runs ----------

  // All that the client of device `d` ought to have been told since it connected.
  ghost function Given(states: seq<System>, evs: seq<SystemEvent>, n: nat, d: DeviceId): seq<Order>
    requires IsRun(states, evs) && n <= |evs|
  {
    if n == 0 || (evs[n - 1].Connect? && evs[n - 1].device == d) then []
    else
      RunsStaySound(states, evs, n - 1);
      Given(states, evs, n - 1, d) + OrdersDue(states[n - 1], evs[n - 1], d)
  }

  lemma NothingGiven()
    ensures Accounted(NEW_CONNECTION, [])
  {
  }

  /** In every reachable state, whatever is still under way, what a connected client has done to its machine
      and will have done once its stream is drained is exactly what follows from obeying, in order, all that
      it ought to have been told since it connected. */
  lemma {:induction false} ClientsObey(states: seq<System>, evs: seq<SystemEvent>, n: nat, d: DeviceId)
    requires IsRun(states, evs) && n <= |evs| && d in states[n].peers
    ensures Accounted(states[n].peers[d], Given(states, evs, n, d))
  {
    hide Sound, Accounted, OrdersDue, Initial, NamedByOwner, Next, Enabled, Admissible, WellTyped;
    NothingGiven();
    if n > 0 {
      RunsStaySound(states, evs, n - 1);
      StillConnected(states[n - 1], evs[n - 1], d);
      if !(evs[n - 1].Connect? && evs[n - 1].device == d) {
        ClientsObey(states, evs, n - 1, d);
        StepAccounted(states[n - 1], evs[n - 1], d, Given(states, evs, n - 1, d));
      }
    }
  }

  // The connection once its client has taken in everything under way.
  function DrainAll(c: Connection): Connection
    requires ClientSound(c)
    decreases |c.queue|
  {
    if c.queue == [] then c
    else
      TakeKeepsSound(c);
      TakeShortens(c);
      DrainAll(Take(c.(queue := c.queue[1..]), c.queue[0]))
  }

  lemma TakeShortens(c: Connection)
    requires ClientSound(c) && c.queue != []
    ensures |Take(c.(queue := c.queue[1..]), c.queue[0]).queue| < |c.queue|
  {
    hide SessionState.Handle, DecodeInput;
  }

  lemma {:induction false} DrainAccounted(c: Connection, given: seq<Order>)
    requires ClientSound(c) && Accounted(c, given)
    ensures Still(DrainAll(c).performed) == Obeyed({}, given)
    ensures DrainAll(c).client.localInjected == HeldBy({}, given)
    decreases |c.queue|
  {
    if c.queue == [] {
      assert OrdersIn([]) == [];
    } else {
      hide Accounted, Take, ClientSound;
      TakeKeepsSound(c);
      TakeShortens(c);
      TakeAccounted(c, given);
      DrainAccounted(Take(c.(queue := c.queue[1..]), c.queue[0]), given);
    }
  }

  /** In every reachable state: drain the stream of a connected client, and all that it has done to its
      machine since it connected, motions apart, is what follows from obeying its orders one by one. */
  lemma DrainedClientsObeyed(states: seq<System>, evs: seq<SystemEvent>, n: nat, d: DeviceId)
    requires IsRun(states, evs) && n <= |evs| && d in states[n].peers
    ensures ClientSound(states[n].peers[d])
    ensures Still(DrainAll(states[n].peers[d]).performed) == Obeyed({}, Given(states, evs, n, d))
  {
    hide Accounted, HostSound, Obeyed, Still, DrainAll;
    RunsStaySound(states, evs, n);
    assert ClientSound(states[n].peers[d]);
    ClientsObey(states, evs, n, d);
    DrainAccounted(states[n].peers[d], Given(states, evs, n, d));
  }

  /** A motion datagram moves the client's cursor by its steps if it is newer than the last one followed, and
      does nothing otherwise; it leaves everything else about the connection as it was. */
  lemma DatagramMoves(sys: System, d: DeviceId, m: Motion)
    requires Sound(sys) && WellTyped(sys) && d in sys.peers
    ensures Next(sys, Datagram(d, m)).Success? && d in Next(sys, Datagram(d, m)).value.peers
    ensures var c, c' := sys.peers[d], Next(sys, Datagram(d, m)).value.peers[d];
            var newer := c.client.lastMotion.None? || m.sequence > c.client.lastMotion.value;
            && c'.performed == c.performed + (if newer then [InjectLocalMotion(m.dx, m.dy)] else [])
            && c'.client.lastMotion == (if newer then Some(m.sequence) else c.client.lastMotion)
            && c'.queue == c.queue && c'.client.localInjected == c.client.localInjected
  {
    hide Sound;
  }

  // ---------- The client's cursor ----------

  // Where an effect list, and where an order list, places the cursor last.
  function LastCursor(effects: seq<SessionEffect>): Option<(I32, I32)>
    decreases effects
  {
    if effects == [] then None
    else
      var later := LastCursor(effects[1..]);
      if later.None? && effects[0].SetLocalCursor? then Some((effects[0].x, effects[0].y)) else later
  }

  function LastPlaced(orders: seq<Order>): Option<(I32, I32)>
    decreases orders
  {
    if orders == [] then None
    else
      var later := LastPlaced(orders[1..]);
      if later.None? && orders[0].PlaceCursor? then Some((orders[0].x, orders[0].y)) else later
  }

  lemma {:induction false} LastCursorConcat(a: seq<SessionEffect>, b: seq<SessionEffect>)
    ensures LastCursor(a + b) == if LastCursor(b).Some? then LastCursor(b) else LastCursor(a)
    decreases a
  {
    if a == [] {
      assert a + b == b;
    } else {
      assert (a + b)[1..] == a[1..] + b;
      LastCursorConcat(a[1..], b);
    }
  }

  lemma {:induction false} LastPlacedConcat(a: seq<Order>, b: seq<Order>)
    ensures LastPlaced(a + b) == if LastPlaced(b).Some? then LastPlaced(b) else LastPlaced(a)
    decreases a
  {
    if a == [] {
      assert a + b == b;
    } else {
      assert (a + b)[1..] == a[1..] + b;
      LastPlacedConcat(a[1..], b);
    }
  }

  lemma {:induction false} NoCursor(effects: seq<SessionEffect>)
    requires forall i | 0 <= i < |effects| :: !effects[i].SetLocalCursor?
    ensures LastCursor(effects) == None
    decreases effects
  {
    if effects != [] {
      NoCursor(effects[1..]);
    }
  }

  lemma {:induction false} NothingPlaced(orders: seq<Order>)
    requires forall i | 0 <= i < |orders| :: !orders[i].PlaceCursor?
    ensures LastPlaced(orders) == None
    decreases orders
  {
    if orders != [] {
      NothingPlaced(orders[1..]);
    }
  }

  lemma {:induction false} ObeyedPlaces(held: set<HeldInput>, orders: seq<Order>)
    ensures LastCursor(Obeyed(held, orders)) == LastPlaced(orders)
    decreases orders
  {
    if orders != [] {
      var first, rest := Obey(held, orders[0]), Obeyed(HeldOn(held, orders[0]), orders[1..]);
      ObeyedPlaces(HeldOn(held, orders[0]), orders[1..]);
      LastCursorConcat(first, rest);
      if !orders[0].PlaceCursor? { NoCursor(first); }
      hide HeldOn;
    }
  }

  lemma {:induction false} StillPlaces(effects: seq<SessionEffect>)
    ensures LastCursor(Still(effects)) == LastCursor(effects)
    decreases effects
  {
    if effects != [] {
      StillPlaces(effects[1..]);
    }
  }

  // The cursor is on a screen of device `d`.
  predicate CursorOn(s: SessionState, d: DeviceId) {
    s.ActiveRemote().Some? && OwnerOf(s.ActiveRemote().value) == d
  }

  // A step that leads to `next` carries the cursor onto a screen of device `d`.
  predicate Enters(sys: System, ev: SystemEvent, next: SessionState, d: DeviceId) {
    && sys.host.Valid() && CursorOn(next, d)
    && HostEventOf(sys, ev).Some? && Transfer(sys.host, HostEventOf(sys, ev).value)
  }

  // The position of the host's router when the cursor was last carried onto one of the client's screens.
  function LastEntry(states: seq<System>, evs: seq<SystemEvent>, n: nat, d: DeviceId): Option<(I32, I32)>
    requires |states| == |evs| + 1 && n <= |evs|
  {
    if n == 0 || (evs[n - 1].Connect? && evs[n - 1].device == d) then None
    else if Enters(states[n - 1], evs[n - 1], states[n].host, d)
    then Some((states[n].host.routing.router.x, states[n].host.routing.router.y))
    else LastEntry(states, evs, n - 1, d)
  }

  lemma StepPlaces(sys: System, ev: SystemEvent, d: DeviceId)
    requires Sound(sys) && Enabled(sys, ev) && Admissible(ev) && WellTyped(sys) && Next(sys, ev).Success?
    ensures var next := Next(sys, ev).value.host;
            LastPlaced(OrdersDue(sys, ev, d))
            == if Enters(sys, ev, next, d) then Some((next.routing.router.x, next.routing.router.y)) else None
  {
    hide Next, Transfer, Expected, Step, PeersSound, Enabled, OwnerOf, NamedByOwner, Consistent, RoutesOnline,
      Bounded;
    HostFollows(sys, ev);
    HostEventIsHostSide(sys, ev);
    if HostEventOf(sys, ev).Some? {
      ExpectedPlaces(sys.host, HostEventOf(sys, ev).value, d);
    }
  }

  lemma HostEventIsHostSide(sys: System, ev: SystemEvent)
    requires Enabled(sys, ev)
    ensures var e := HostEventOf(sys, ev);
            e.Some? && e.value.Handle? ==> !e.value.event.InputArrived? && !e.value.event.EnterArrived?
  {
  }

  lemma ExpectedPlaces(s: SessionState, ev: HostEvent, d: DeviceId)
    requires Consistent(s) && HostSide(ev) && (ev.Handle? ==> !ev.event.EnterArrived?)
    requires s.routing.ScreenRouting?
    ensures var s' := Step(s, ev).0;
            && s'.routing.ScreenRouting?
            && LastPlaced(Expected(s, ev, ClientOf(d)))
               == if Transfer(s, ev) && CursorOn(s', d)
                  then Some((s'.routing.router.x, s'.routing.router.y)) else None
  {
    StepKeepsRouting(s, ev);
    var s', p := Step(s, ev).0, ClientOf(d);
    hide Step, Transfer, OwnerOf, Consistent, Orphan;
    if Transfer(s, ev) {
      LastPlacedConcat(Leaving(s, s', p), Arriving(s', p));
      NothingPlaced(Leaving(s, s', p));
      ArrivalPlaces(s', p);
    }
  }

  lemma ArrivalPlaces(s: SessionState, p: Party)
    requires !s.routing.NoRouting?
    ensures LastPlaced(Arriving(s, p)) == if Serves(p, Holder(s)) then Some(Position(s)) else None
  {
    var place, presses := [PlaceCursor(Position(s).0, Position(s).1)], Injections(s.physicalHeld, Pressed);
    LastPlacedConcat(place, presses);
    NothingPlaced(presses);
    hide Injections, Ordered, Serves;
  }

  lemma StepKeepsRouting(s: SessionState, ev: HostEvent)
    requires Consistent(s) && s.routing.ScreenRouting?
    ensures Step(s, ev).0.routing.ScreenRouting?
  {
    hide RouterState.Route, CheckTopology, Ordered, LocalEvents, RemotePresses;
  }

  /** In every reachable state: drain the stream of a connected client, and its cursor was last placed where
      the host's router put the cursor when it last came onto one of that client's screens. */
  lemma ClientCursorIsEntry(states: seq<System>, evs: seq<SystemEvent>, n: nat, d: DeviceId)
    requires IsRun(states, evs) && n <= |evs| && d in states[n].peers
    ensures ClientSound(states[n].peers[d])
    ensures LastCursor(DrainAll(states[n].peers[d]).performed) == LastEntry(states, evs, n, d)
  {
    DrainedClientsObeyed(states, evs, n, d);
    StillPlaces(DrainAll(states[n].peers[d]).performed);
    ObeyedPlaces({}, Given(states, evs, n, d));
    GivenPlaces(states, evs, n, d);
    hide IsRun, HostSound, DrainAll, Obeyed, Still, Given, LastEntry;
  }

  lemma {:induction false} GivenPlaces(states: seq<System>, evs: seq<SystemEvent>, n: nat, d: DeviceId)
    requires IsRun(states, evs) && n <= |evs|
    ensures LastPlaced(Given(states, evs, n, d)) == LastEntry(states, evs, n, d)
  {
    hide Sound, OrdersDue, Initial, NamedByOwner, Next, Enabled, Admissible, WellTyped, Enters;
    if n > 0 && !(evs[n - 1].Connect? && evs[n - 1].device == d) {
      GivenPlaces(states, evs, n - 1, d);
      RunStep(states, evs, n - 1);
      StepPlaces(states[n - 1], evs[n - 1], d);
      LastPlacedConcat(Given(states, evs, n - 1, d), OrdersDue(states[n - 1], evs[n - 1], d));
    }
  }

  // Without a transfer the cursor stays on its side.
  lemma HolderStays(s: SessionState, ev: HostEvent)
    requires Consistent(s) && HostSide(ev) && !Transfer(s, ev)
    ensures Holder(Step(s, ev).0) == Holder(s)
    ensures s.routing.ScreenRouting? ==> Step(s, ev).0.ActiveRemote() == s.ActiveRemote()
  {
    if ev.Replace? {
      if s.routing.ScreenRouting? { ReplaceAcceptedExactly(s, ev.topology); }
      if s.ReplaceTopology(ev.topology).Success? && s.control.RemoteControl? { RemoteControlKept(s, ev.topology); }
    } else if ev.event.PhysicalMotion? {
      MotionCarried(s, ev.event.motion);
    }
    hide SessionState.AfterMotion, CanFollow, OnlineAndLinked, Observe, Ordered, LocalEvents, CheckTopology;
  }

  /** While the cursor is on one of its screens, a client has been told where. */
  lemma {:induction false} CursorHasEntry(states: seq<System>, evs: seq<SystemEvent>, n: nat, d: DeviceId)
    requires IsRun(states, evs) && |states| == |evs| + 1 && n <= |evs| && CursorOn(states[n].host, d)
    ensures LastEntry(states, evs, n, d).Some?
  {
    hide IsRun, Enters, OwnerOf;
    StartsAtHome(states, evs);
    if n > 0 {
      EntryStep(states, evs, n, d);
      if !Enters(states[n - 1], evs[n - 1], states[n].host, d) {
        CursorHasEntry(states, evs, n - 1, d);
      }
    }
  }

  lemma EntryStep(states: seq<System>, evs: seq<SystemEvent>, n: nat, d: DeviceId)
    requires IsRun(states, evs) && 0 < n <= |evs| && CursorOn(states[n].host, d)
    ensures !(evs[n - 1].Connect? && evs[n - 1].device == d)
    ensures Enters(states[n - 1], evs[n - 1], states[n].host, d) || CursorOn(states[n - 1].host, d)
  {
    hide IsRun, Sound, Next, Enabled, Admissible, WellTyped, Enters, CursorOn;
    RunStep(states, evs, n - 1);
    var sys, ev := states[n - 1], evs[n - 1];
    if ev.Connect? {
      NotByReplacing(sys, ev, d);
    }
    if !Enters(sys, ev, states[n].host, d) {
      CursorWasThere(sys, ev, d);
      ConnectedAlready(sys, ev, d);
    }
  }

  // A topology change never carries the cursor onto another client's screen.
  lemma NotByReplacing(sys: System, ev: SystemEvent, d: DeviceId)
    requires Sound(sys) && Enabled(sys, ev) && WellTyped(sys) && Next(sys, ev).Success? && TopologyOf(ev).Some?
    ensures !Enters(sys, ev, Next(sys, ev).value.host, d)
  {
    hide Next, Step, PeersSound, Enabled, OwnerOf, NamedByOwner, Consistent, RoutesOnline, Bounded, LosesScreen;
    HostFollows(sys, ev);
    if LosesScreen(sys.host, TopologyOf(ev).value) {
      LossLeadsHome(sys.host, TopologyOf(ev).value);
    }
  }

  lemma LossLeadsHome(s: SessionState, t: ScreenTopology)
    requires LosesScreen(s, t) && s.Valid()
    ensures Step(s, Replace(t)).0.ActiveRemote().None?
  {
    LostScreenComesHome(s, t);
    hide ValidTopology, OnlineAndLinked, CheckTopology;
  }

  lemma CursorWasThere(sys: System, ev: SystemEvent, d: DeviceId)
    requires Sound(sys) && Enabled(sys, ev) && WellTyped(sys) && Next(sys, ev).Success?
    requires CursorOn(Next(sys, ev).value.host, d) && !Enters(sys, ev, Next(sys, ev).value.host, d)
    ensures CursorOn(sys.host, d)
  {
    hide Next, Transfer, Step, PeersSound, Enabled, OwnerOf, NamedByOwner, Consistent, RoutesOnline, Bounded;
    HostFollows(sys, ev);
    HostEventIsHostSide(sys, ev);
    if HostEventOf(sys, ev).Some? {
      HolderStays(sys.host, HostEventOf(sys, ev).value);
    }
  }

  // ---------- What is typed at a client ----------

  function CapturedBy(ev: SystemEvent): seq<InputEvent> {
    if ev.Captured? && ev.event.PhysicalInput? then [ev.event.event] else []
  }

  // The physical inputs captured in the first `n` steps.
  function CapturedUpTo(evs: seq<SystemEvent>, n: nat): seq<InputEvent>
    requires n <= |evs|
  {
    if n == 0 then [] else CapturedUpTo(evs, n - 1) + CapturedBy(evs[n - 1])
  }

  lemma CapturedStep(sys: System, ev: SystemEvent, es: seq<InputEvent>)
    requires Sound(sys) && Enabled(sys, ev) && sys.host.physicalHeld == HeldAfter(es)
    ensures var e := HostEventOf(sys, ev);
            (if e.Some? then Step(sys.host, e.value).0 else sys.host).physicalHeld == HeldAfter(es + CapturedBy(ev))
  {
    hide PeersSound, HeldAfter, Observe, Step;
    assert es + [] == es;
    if HostEventOf(sys, ev).Some? {
      HeldStep(sys.host, HostEventOf(sys, ev).value);
      if CapturedBy(ev) != [] { HeldSnoc(es, CapturedBy(ev)[0]); }
    }
  }

  // What the host takes to be held is what was pressed and has not been released since.
  lemma {:induction false} HostHeldByHistory(states: seq<System>, evs: seq<SystemEvent>, n: nat)
    requires IsRun(states, evs) && n <= |evs|
    ensures states[n].host.physicalHeld == HeldAfter(CapturedUpTo(evs, n))
  {
    NothingHeld();
    hide Sound, NamedByOwner, Next, Enabled, Admissible, WellTyped, HeldAfter, Step, CapturedBy;
    if n > 0 {
      HostHeldByHistory(states, evs, n - 1);
      RunStep(states, evs, n - 1);
      HostFollows(states[n - 1], evs[n - 1]);
      CapturedStep(states[n - 1], evs[n - 1], CapturedUpTo(evs, n - 1));
    }
  }

  // The step neither moves the cursor to another screen nor stops the host.
  predicate Steady(sys: System, ev: SystemEvent)
    requires sys.host.Valid()
  {
    !ev.Stop? && (HostEventOf(sys, ev).Some? ==> !Transfer(sys.host, HostEventOf(sys, ev).value))
  }

  // An input, unless it repeats a key that is not held.
  function Kept(held: set<HeldInput>, es: seq<InputEvent>): seq<InputEvent> {
    if es != [] && Orphan(held, es[0]) then [] else es
  }

  // What is typed from step `m` to step `n`, less the repeats of keys that are not held.
  function TypedBetween(evs: seq<SystemEvent>, m: nat, n: nat): seq<InputEvent>
    requires m <= n <= |evs|
  {
    if m == n then []
    else TypedBetween(evs, m, n - 1) + Kept(HeldAfter(CapturedUpTo(evs, n - 1)), CapturedBy(evs[n - 1]))
  }

  function Injects(es: seq<InputEvent>): seq<Order> {
    seq(|es|, i requires 0 <= i < |es| => Inject(es[i]))
  }

  function InjectedLocally(es: seq<InputEvent>): (effects: seq<SessionEffect>)
    ensures |effects| == |es| && forall i | 0 <= i < |es| :: effects[i] == InjectLocal(es[i])
  {
    seq(|es|, i requires 0 <= i < |es| => InjectLocal(es[i]))
  }

  lemma SteadyStep(sys: System, ev: SystemEvent, d: DeviceId)
    requires Sound(sys) && Enabled(sys, ev) && Admissible(ev) && WellTyped(sys) && Next(sys, ev).Success?
    requires CursorOn(sys.host, d) && Steady(sys, ev)
    ensures CursorOn(Next(sys, ev).value.host, d)
    ensures OrdersDue(sys, ev, d) == Injects(Kept(sys.host.physicalHeld, CapturedBy(ev)))
  {
    hide Next, PeersSound, Step, Transfer, Expected, CursorOn, OwnerOf, NamedByOwner, Consistent, RoutesOnline,
      Bounded;
    HostFollows(sys, ev);
    assert CapturedBy(ev) == [] ==> Injects(Kept(sys.host.physicalHeld, CapturedBy(ev))) == [];
    if HostEventOf(sys, ev).Some? {
      SteadyHost(sys.host, HostEventOf(sys, ev).value, d);
    }
  }

  lemma SteadyHost(s: SessionState, ev: HostEvent, d: DeviceId)
    requires Consistent(s) && HostSide(ev) && CursorOn(s, d) && !Transfer(s, ev) && !IsRelease(ev)
    requires ev.Handle? ==> ev.event.PhysicalInput? || ev.event.PhysicalMotion?
    ensures CursorOn(Step(s, ev).0, d)
    ensures !Step(s, ev).0.routing.NoRouting?
    ensures Expected(s, ev, ClientOf(d)) == Injects(Kept(s.physicalHeld, Typed(ev)))
  {
    if ev.Replace? {
      ReplaceAcceptedExactly(s, ev.topology);
      if s.ReplaceTopology(ev.topology).Success? { RemoteControlKept(s, ev.topology); }
    } else if ev.event.PhysicalMotion? {
      MotionCarried(s, ev.event.motion);
    }
    hide OwnerOf, SessionState.AfterMotion, SessionState.ReplaceTopology, CanFollow, Orphan, Observe;
  }

  lemma InjectsConcat(a: seq<InputEvent>, b: seq<InputEvent>)
    ensures Injects(a + b) == Injects(a) + Injects(b)
  {
  }

  lemma {:induction false} InjectsObeyed(held: set<HeldInput>, es: seq<InputEvent>)
    ensures Obeyed(held, Injects(es)) == InjectedLocally(es)
    decreases es
  {
    if es != [] {
      assert Injects(es)[0] == Inject(es[0]) && Injects(es)[1..] == Injects(es[1..]);
      InjectsObeyed(Observe(held, es[0]), es[1..]);
    }
  }

  lemma StretchStep(states: seq<System>, evs: seq<SystemEvent>, n: nat, d: DeviceId)
    requires IsRun(states, evs) && 0 < n <= |evs| && CursorOn(states[n - 1].host, d)
    requires states[n - 1].host.Valid() && Steady(states[n - 1], evs[n - 1])
    ensures CursorOn(states[n].host, d)
    ensures Given(states, evs, n, d) == Given(states, evs, n - 1, d)
            + Injects(Kept(HeldAfter(CapturedUpTo(evs, n - 1)), CapturedBy(evs[n - 1])))
  {
    hide Sound, Initial, NamedByOwner, Next, Enabled, Admissible, WellTyped, Steady, CursorOn, OrdersDue, Kept,
      HeldAfter, CapturedBy, Injects, SessionState.Valid;
    RunStep(states, evs, n - 1);
    HostHeldByHistory(states, evs, n - 1);
    SteadyStep(states[n - 1], evs[n - 1], d);
    ConnectedAlready(states[n - 1], evs[n - 1], d);
  }

  lemma {:induction false} StretchGiven(states: seq<System>, evs: seq<SystemEvent>, m: nat, n: nat, d: DeviceId)
    requires IsRun(states, evs) && m <= n <= |evs| && CursorOn(states[m].host, d)
    requires forall k | m <= k < n :: states[k].host.Valid() && Steady(states[k], evs[k])
    ensures CursorOn(states[n].host, d)
    ensures Given(states, evs, n, d) == Given(states, evs, m, d) + Injects(TypedBetween(evs, m, n))
  {
    hide IsRun, Steady, CursorOn, Kept, HeldAfter, CapturedBy, CapturedUpTo, Given, SessionState.Valid;
    if m == n {
      assert Injects([]) == [];
    } else {
      StretchGiven(states, evs, m, n - 1, d);
      StretchStep(states, evs, n, d);
      InjectsConcat(TypedBetween(evs, m, n - 1), Kept(HeldAfter(CapturedUpTo(evs, n - 1)), CapturedBy(evs[n - 1])));
    }
  }

  // The device whose screen the cursor is on is connected, so it cannot connect now.
  lemma ConnectedAlready(sys: System, ev: SystemEvent, d: DeviceId)
    requires Sound(sys) && Enabled(sys, ev) && CursorOn(sys.host, d)
    ensures d in sys.peers && !(ev.Connect? && ev.device == d)
  {
  }

  /** As long as the cursor stays on one screen of a client and the host is not stopped, the client does to
      its machine exactly what is typed, in order, less the repeats of keys that are not held; whoever else
      comes or goes, and however the messages are delayed. */
  lemma StretchDelivered(states: seq<System>, evs: seq<SystemEvent>, m: nat, n: nat, d: DeviceId)
    requires IsRun(states, evs) && m <= n <= |evs| && CursorOn(states[m].host, d)
    requires forall k | m <= k < n :: states[k].host.Valid() && Steady(states[k], evs[k])
    ensures d in states[m].peers && d in states[n].peers
    ensures ClientSound(states[m].peers[d]) && ClientSound(states[n].peers[d])
    ensures Still(DrainAll(states[n].peers[d]).performed)
            == Still(DrainAll(states[m].peers[d]).performed) + InjectedLocally(TypedBetween(evs, m, n))
  {
    hide HostSound, DrainAll, Still, Given, Steady, TypedBetween;
    StretchGiven(states, evs, m, n, d);
    CursorIsConnected(states, evs, m, d);
    CursorIsConnected(states, evs, n, d);
    DrainedClientsObeyed(states, evs, m, d);
    DrainedClientsObeyed(states, evs, n, d);
    ObeyedConcat({}, Given(states, evs, m, d), Injects(TypedBetween(evs, m, n)));
    InjectsObeyed(HeldBy({}, Given(states, evs, m, d)), TypedBetween(evs, m, n));
  }

  lemma CursorIsConnected(states: seq<System>, evs: seq<SystemEvent>, n: nat, d: DeviceId)
    requires IsRun(states, evs) && n <= |evs| && CursorOn(states[n].host, d)
    ensures d in states[n].peers
  {
    RunsStaySound(states, evs, n);
  }
}
