/** A host and its clients, joined by one reliable first-in first-out stream per connection. */
module HostClient {
  import opened MachineInts
  import opened Wrappers
  import opened ScreenModel
  import opened InputModel
  import opened TopologyRouting
  import opened DesktopSessions
  import opened InputOwnership
  import opened OwnershipRuns
  import opened WireProtocol

  // The host's end of a connection, the messages under way and the client at the other end: its
  // session, and everything it has done to its own machine since it connected.
  datatype Connection = Connection(
    sequence: U64,
    heartbeat: U64,
    queue: seq<ReliableEvent>,
    client: SessionState,
    performed: seq<SessionEffect>)
  {
    // What the client has pressed on its machine and not yet released.
    function Machine(): World {
      Replay(IDLE_WORLD, performed)
    }
  }

  type Peers = map<DeviceId, Connection>

  datatype HostFault =
    | ScreenNotInTopology(id: ScreenId)
    | DeviceNotConnected(id: DeviceId)
    | NotExactlyOnePeer
    | NotEncodable(error: ConversionError)

  const NEW_CONNECTION: Connection := Connection(0, 0, [], CLIENT, [])

  // ---------- Executing effects on the peers ----------

  function PeerForScreen(peers: Peers, t: ScreenTopology, id: ScreenId): Result<DeviceId, HostFault> {
    var found := FindScreen(t.screens, id);
    if found.None? then Failure(ScreenNotInTopology(id))
    else if found.value.deviceId !in peers then Failure(DeviceNotConnected(found.value.deviceId))
    else Success(found.value.deviceId)
  }

  ghost function OnlyPeer(peers: Peers): Result<DeviceId, HostFault> {
    if |peers| != 1 then Failure(NotExactlyOnePeer)
    else
      var d :| d in peers;
      Success(d)
  }

  function Enqueue(peers: Peers, d: DeviceId, m: ReliableEvent): Peers
    requires d in peers
  {
    peers[d := peers[d].(queue := peers[d].queue + [m])]
  }

  // Counters wrap around.
  function NextSequence(n: U64): U64 {
    if n == U64_MAX then 0 else n + 1
  }

  // The sequence number is used up even if the event cannot be encoded.
  function SendInput(peers: Peers, d: DeviceId, e: InputEvent): (Peers, Option<HostFault>)
    requires d in peers
  {
    var sequence := NextSequence(peers[d].sequence);
    var counted := peers[d := peers[d].(sequence := sequence)];
    var m := EncodeInput(sequence, e);
    if m.Failure? then (counted, Some(NotEncodable(m.error))) else (Enqueue(counted, d, m.value), None)
  }

  // One effect. Local effects and motion datagrams put nothing on the reliable streams, but a
  // datagram still needs its peer.
  ghost function ExecutedOne(peers: Peers, t: ScreenTopology, effect: SessionEffect): (Peers, Option<HostFault>) {
    match effect
    case SendScreen(id, e) =>
      var peer := PeerForScreen(peers, t, id);
      if peer.Failure? then (peers, Some(peer.error)) else SendInput(peers, peer.value, e)
    case SendScreenMotion(id, _) =>
      var peer := PeerForScreen(peers, t, id);
      (peers, if peer.Failure? then Some(peer.error) else None)
    case EnterScreen(id, x, y) =>
      var peer := PeerForScreen(peers, t, id);
      if peer.Failure? then (peers, Some(peer.error)) else (Enqueue(peers, peer.value, EnterScreenAt(x, y)), None)
    case ReleaseScreen(id) =>
      var peer := PeerForScreen(peers, t, id);
      (if peer.Failure? then peers else Enqueue(peers, peer.value, ReleaseAll), None)
    case SendRemote(e) =>
      var peer := OnlyPeer(peers);
      if peer.Failure? then (peers, Some(peer.error)) else SendInput(peers, peer.value, e)
    case SendRemoteMotion(_) =>
      (peers, if OnlyPeer(peers).Failure? then Some(NotExactlyOnePeer) else None)
    case EnterPeer(x, y) =>
      var peer := OnlyPeer(peers);
      if peer.Failure? then (peers, Some(peer.error)) else (Enqueue(peers, peer.value, EnterScreenAt(x, y)), None)
    case ReleasePeer =>
      (if OnlyPeer(peers).Failure? then peers else Enqueue(peers, OnlyPeer(peers).value, ReleaseAll), None)
    case _ => (peers, None)
  }

  // The first failing effect ends the list.
  ghost function Executed(peers: Peers, t: ScreenTopology, effects: seq<SessionEffect>): (Peers, Option<HostFault>)
    decreases effects
  {
    if effects == [] then (peers, None)
    else
      var (peers', fault) := ExecutedOne(peers, t, effects[0]);
      if fault.Some? then (peers', fault) else Executed(peers', t, effects[1..])
  }

  // A heartbeat, or a report of the host's own screens, goes to every peer.
  function Beaten(c: Connection): Connection {
    c.(heartbeat := NextSequence(c.heartbeat), queue := c.queue + [Heartbeat(NextSequence(c.heartbeat))])
  }

  function Informed(c: Connection, screens: seq<WireScreen>): Connection {
    c.(queue := c.queue + [ScreenInventory(screens)])
  }

  function AllBeaten(peers: Peers): Peers {
    map d | d in peers :: Beaten(peers[d])
  }

  function AllInformed(peers: Peers, screens: seq<WireScreen>): Peers {
    map d | d in peers :: Informed(peers[d], screens)
  }

  lemma OnlyPeerIsTheOne(peers: Peers, d: DeviceId)
    requires |peers| == 1 && d in peers
    ensures OnlyPeer(peers) == Success(d)
  {
    var o := OnlyPeer(peers).value;
    assert |peers.Keys - {d}| == 0;
    assert o in peers.Keys && (o != d ==> o in peers.Keys - {d});
  }

  /** The host's connections, by device, and the loop that executes a list of effects on them. */
  class PeerTable {
    var peers: Peers

    constructor ()
      ensures peers == map[]
    {
      peers := map[];
    }

    // `write_reliable(encode_input(..))` with the next sequence number.
    method Send(d: DeviceId, e: InputEvent) returns (fault: Option<HostFault>)
      requires d in peers
      modifies this
      ensures (peers, fault) == SendInput(old(peers), d, e)
    {
      var sequence := NextSequence(peers[d].sequence);
      peers := peers[d := peers[d].(sequence := sequence)];
      var m := EncodeInput(sequence, e);
      if m.Failure? {
        return Some(NotEncodable(m.error));
      }
      peers := Enqueue(peers, d, m.value);
      return None;
    }

    method FindOnlyPeer() returns (r: Result<DeviceId, HostFault>)
      ensures r == OnlyPeer(peers)
    {
      if |peers| != 1 {
        return Failure(NotExactlyOnePeer);
      }
      assert peers.Keys != {};
      var d :| d in peers.Keys;
      OnlyPeerIsTheOne(peers, d);
      return Success(d);
    }

    method ExecuteOne(t: ScreenTopology, effect: SessionEffect) returns (fault: Option<HostFault>)
      modifies this
      ensures (peers, fault) == ExecutedOne(old(peers), t, effect)
    {
      fault := None;
      match effect {
        case SendScreen(id, e) =>
          var peer := PeerForScreen(peers, t, id);
          if peer.Failure? {
            return Some(peer.error);
          }
          fault := Send(peer.value, e);
        case SendScreenMotion(id, _) =>
          var peer := PeerForScreen(peers, t, id);
          if peer.Failure? {
            return Some(peer.error);
          }
        case EnterScreen(id, x, y) =>
          var peer := PeerForScreen(peers, t, id);
          if peer.Failure? {
            return Some(peer.error);
          }
          peers := Enqueue(peers, peer.value, EnterScreenAt(x, y));
        case ReleaseScreen(id) =>
          var peer := PeerForScreen(peers, t, id);
          if peer.Success? {
            peers := Enqueue(peers, peer.value, ReleaseAll);
          }
        case SendRemote(e) =>
          var peer := FindOnlyPeer();
          if peer.Failure? {
            return Some(peer.error);
          }
          fault := Send(peer.value, e);
        case SendRemoteMotion(_) =>
          var peer := FindOnlyPeer();
          if peer.Failure? {
            return Some(peer.error);
          }
        case EnterPeer(x, y) =>
          var peer := FindOnlyPeer();
          if peer.Failure? {
            return Some(peer.error);
          }
          peers := Enqueue(peers, peer.value, EnterScreenAt(x, y));
        case ReleasePeer =>
          var peer := FindOnlyPeer();
          if peer.Success? {
            peers := Enqueue(peers, peer.value, ReleaseAll);
          }
        case _ =>
      }
    }

    // `execute_host_effects_multi`.
    method Execute(t: ScreenTopology, effects: seq<SessionEffect>) returns (fault: Option<HostFault>)
      modifies this
      ensures (peers, fault) == Executed(old(peers), t, effects)
    {
      for i := 0 to |effects|
        invariant Executed(old(peers), t, effects) == Executed(peers, t, effects[i..])
      {
        assert effects[i..][0] == effects[i] && effects[i..][1..] == effects[i + 1..];
        fault := ExecuteOne(t, effects[i]);
        if fault.Some? {
          return;
        }
      }
      return None;
    }

    // The heartbeat loop over all peers.
    method Beat()
      modifies this
      ensures peers == AllBeaten(old(peers))
    {
      var rest := peers.Keys;
      while rest != {}
        invariant rest <= peers.Keys == old(peers).Keys
        invariant forall d | d in peers :: peers[d] == if d in rest then old(peers)[d] else Beaten(old(peers)[d])
        decreases rest
      {
        var d :| d in rest;
        rest := rest - {d};
        peers := peers[d := Beaten(peers[d])];
      }
    }

    // The loop that reports the host's screens to all peers.
    method Inform(screens: seq<WireScreen>)
      modifies this
      ensures peers == AllInformed(old(peers), screens)
    {
      var rest := peers.Keys;
      while rest != {}
        invariant rest <= peers.Keys == old(peers).Keys
        invariant forall d | d in peers :: peers[d] == if d in rest then old(peers)[d]
            else Informed(old(peers)[d], screens)
        decreases rest
      {
        var d :| d in rest;
        rest := rest - {d};
        peers := peers[d := Informed(peers[d], screens)];
      }
    }
  }

  // ---------- What a client makes of its stream ----------

  // Handshakes are out of place once connected, and an input has to decode.
  predicate Acceptable(m: ReliableEvent) {
    match m
    case Input(_, _, _, _) => DecodeInput(m).Success?
    case Hello(_, _) => false
    case ClientHello(_, _) => false
    case _ => true
  }

  // What a message means to the client's session; heartbeats and inventories mean nothing to it.
  function ClientEvent(m: ReliableEvent): Option<SessionEvent> {
    match m
    case Input(_, _, _, _) => if DecodeInput(m).Success? then Some(InputArrived(DecodeInput(m).value)) else None
    case EnterScreenAt(x, y) => Some(EnterArrived(x, y))
    case ReleaseAll => Some(ReleaseRequested)
    case _ => None
  }

  function Receive(c: Connection, ev: SessionEvent): Connection
    requires c.client.Valid()
  {
    var (client, effects) := c.client.Handle(ev);
    c.(client := client, performed := c.performed + effects)
  }

  function Take(c: Connection, m: ReliableEvent): Connection
    requires c.client.Valid()
  {
    if ClientEvent(m).Some? then Receive(c, ClientEvent(m).value) else c
  }

  // The inputs a client holds after taking one message in.
  function Taken(held: set<HeldInput>, m: ReliableEvent): set<HeldInput> {
    if m.Input? && DecodeInput(m).Success? then Observe(held, DecodeInput(m).value)
    else if m.ReleaseAll? then {}
    else held
  }

  // The inputs a client holds after everything under way has arrived.
  function Drained(held: set<HeldInput>, queue: seq<ReliableEvent>): set<HeldInput>
    decreases queue
  {
    if queue == [] then held else Drained(Taken(held, queue[0]), queue[1..])
  }

  predicate Understood(queue: seq<ReliableEvent>) {
    forall i | 0 <= i < |queue| :: Acceptable(queue[i])
  }

  lemma {:induction false} DrainedAppend(held: set<HeldInput>, queue: seq<ReliableEvent>, m: ReliableEvent)
    ensures Drained(held, queue + [m]) == Taken(Drained(held, queue), m)
    decreases queue
  {
    if queue == [] {
      assert queue + [m] == [m];
    } else {
      assert (queue + [m])[1..] == queue[1..] + [m];
      DrainedAppend(Taken(held, queue[0]), queue[1..], m);
    }
  }

  // ---------- The system ----------

  // Input is captured, and there is an injector, from the first time a peer has joined.
  datatype System = System(host: SessionState, topology: ScreenTopology, peers: Peers, capturing: bool)

  datatype SystemEvent =
    | Captured(event: SessionEvent)
    | Connect(device: DeviceId, topology: ScreenTopology)
    | Disconnect(device: DeviceId, topology: ScreenTopology)
    | Update(topology: ScreenTopology)
    | Deliver(device: DeviceId)
    | Datagram(device: DeviceId, motion: Motion)
    | Beat
    | Report(screens: seq<WireScreen>)
    | Stop

  datatype SystemFault =
    | SessionFailed(reason: SessionFault)
    | HostFailed(fault: HostFault)
    | NotUnderstood(m: ReliableEvent)

  ghost function Replaced(sys: System, peers: Peers, t: ScreenTopology): Result<System, SystemFault> {
    var r := sys.host.ReplaceTopology(t);
    if r.Failure? then Failure(SessionFailed(r.error))
    else
      var (peers', fault) := Executed(peers, t, r.value.1);
      if fault.Some? then Failure(HostFailed(fault.value))
          else Success(sys.(host := r.value.0, topology := t, peers := peers'))
  }

  ghost function Handled(sys: System, ev: SessionEvent): Result<System, SystemFault>
    requires sys.host.Valid()
  {
    var (host, effects) := sys.host.Handle(ev);
    var (peers', fault) := Executed(sys.peers, sys.topology, effects);
    if fault.Some? then Failure(HostFailed(fault.value)) else Success(sys.(host := host, peers := peers'))
  }

  predicate Enabled(sys: System, ev: SystemEvent) {
    match ev
    case Captured(event) => sys.capturing && (event.PhysicalInput? || event.PhysicalMotion?)
    case Connect(d, _) => d !in sys.peers
    case Disconnect(d, _) => d in sys.peers
    case Deliver(d) => d in sys.peers && sys.peers[d].queue != []
    case Datagram(d, _) => d in sys.peers
    case _ => true
  }

  predicate WellTyped(sys: System) {
    sys.host.Valid() && forall d | d in sys.peers :: sys.peers[d].client.Valid()
  }

  // One step of the whole system; a failure ends the host's run.
  ghost function Next(sys: System, ev: SystemEvent): Result<System, SystemFault>
    requires Enabled(sys, ev) && WellTyped(sys)
  {
    match ev
    case Captured(event) => Handled(sys, event)
    case Stop => if sys.capturing then Handled(sys, StopRequested) else Success(sys)
    case Update(t) => Replaced(sys, sys.peers, t)
    case Disconnect(d, t) => Replaced(sys, sys.peers - {d}, t)
    case Connect(d, t) =>
      var r := Replaced(sys, sys.peers, t);
      if r.Failure? then r else Success(r.value.(peers := r.value.peers[d := NEW_CONNECTION], capturing := true))
    case Deliver(d) =>
      var c := sys.peers[d];
      var m := c.queue[0];
      if !Acceptable(m) then Failure(NotUnderstood(m))
      else Success(sys.(peers := sys.peers[d := Take(c.(queue := c.queue[1..]), m)]))
    case Datagram(d, motion) =>
      Success(sys.(peers := sys.peers[d := Receive(sys.peers[d], MotionArrived(motion))]))
    case Beat => Success(sys.(peers := AllBeaten(sys.peers)))
    case Report(screens) => Success(sys.(peers := AllInformed(sys.peers, screens)))
  }

  // ---------- The invariant ----------

  // If the cursor is on a remote screen, that screen's device is connected.
  predicate Attended(host: SessionState, devices: set<DeviceId>) {
    host.ActiveRemote().Some? ==> OwnerOf(host.ActiveRemote().value) in devices
  }

  predicate CanonicalHeld(held: set<HeldInput>) {
    forall h | h in held :: Canonical(h.Event(Pressed))
  }

  // What a client ought to hold: everything, if the cursor is on one of its screens, else nothing.
  function Due(host: SessionState, d: DeviceId): set<HeldInput> {
    if host.ActiveRemote().Some? && OwnerOf(host.ActiveRemote().value) == d then host.remoteInjected else {}
  }

  predicate ClientSound(c: Connection) {
    && c.client.role.Client? && c.client.routing.NoRouting?
    && c.Machine().On(Here) == c.client.localInjected
    && Understood(c.queue)
  }

  ghost predicate HostSound(host: SessionState, t: ScreenTopology, devices: set<DeviceId>) {
    && Consistent(host) && Bounded(host) && RoutesOnline(host) && CanonicalHeld(host.physicalHeld)
    && host.routing.ScreenRouting? && host.routing.router.topology == t
    && NamedByOwner(t) && Attended(host, devices)
  }

  ghost predicate PeersSound(peers: Peers, host: SessionState) {
    forall d | d in peers :: ClientSound(peers[d])
        && Drained(peers[d].client.localInjected, peers[d].queue) == Due(host, d)
  }

  ghost predicate Sound(sys: System) {
    && HostSound(sys.host, sys.topology, sys.peers.Keys) && PeersSound(sys.peers, sys.host)
    && (sys.peers != map[] ==> sys.capturing)
  }

  // ---------- Executing an effect list, device by device ----------

  // What an effect does to the inputs that device `d` is to hold.
  function Owed(d: DeviceId, held: set<HeldInput>, effect: SessionEffect): set<HeldInput> {
    if effect.SendScreen? && OwnerOf(effect.screenId) == d then Observe(held, effect.event)
    else if effect.ReleaseScreen? && OwnerOf(effect.screenId) == d then {}
    else held
  }

  // What an effect list does to the inputs that device `d` is to hold.
  function DeviceFold(d: DeviceId, held: set<HeldInput>, effects: seq<SessionEffect>): set<HeldInput>
    decreases effects
  {
    if effects == [] then held
    else DeviceFold(d, Owed(d, held, effects[0]), effects[1..])
  }

  // An effect that can be carried out: its screen's device is connected and its event canonical.
  predicate Deliverable(devices: set<DeviceId>, t: ScreenTopology, effect: SessionEffect) {
    match effect
    case SendScreen(id, e) => Knows(t, id) && OwnerOf(id) in devices && Canonical(e)
    case SendScreenMotion(id, _) => Knows(t, id) && OwnerOf(id) in devices
    case EnterScreen(id, _, _) => Knows(t, id) && OwnerOf(id) in devices
    case ReleaseScreen(id) => Knows(t, id)
    case SendRemote(_) => false
    case SendRemoteMotion(_) => false
    case EnterPeer(_, _) => false
    case ReleasePeer => false
    case _ => true
  }

  predicate AllDeliverable(devices: set<DeviceId>, t: ScreenTopology, effects: seq<SessionEffect>) {
    forall i | 0 <= i < |effects| :: Deliverable(devices, t, effects[i])
  }

  // Only the queues and counters of peers change, and what has been queued is understood.
  predicate Extends(peers: Peers, peers': Peers) {
    && peers'.Keys == peers.Keys
    && forall d | d in peers ::
         && peers'[d].client == peers[d].client && peers'[d].performed == peers[d].performed
         && (Understood(peers[d].queue) ==> Understood(peers'[d].queue))
  }

  lemma OwnerIsDevice(t: ScreenTopology, id: ScreenId)
    requires NamedByOwner(t) && Knows(t, id)
    ensures FindScreen(t.screens, id).value.deviceId == OwnerOf(id)
  {
    FindScreenExact(t.screens, id);
  }

  lemma EnqueueDrains(peers: Peers, owner: DeviceId, m: ReliableEvent, d: DeviceId, held: set<HeldInput>)
    requires owner in peers && d in peers && Acceptable(m)
    ensures var peers' := Enqueue(peers, owner, m);
            && Extends(peers, peers')
            && Drained(held, peers'[d].queue)
               == if d == owner then Taken(Drained(held, peers[d].queue), m) else Drained(held, peers[d].queue)
  {
    DrainedAppend(held, peers[d].queue, m);
    hide Drained, Acceptable, Taken;
    assert Enqueue(peers, owner, m).Keys == peers.Keys;
  }

  lemma SendDrains(peers: Peers, owner: DeviceId, e: InputEvent, d: DeviceId, held: set<HeldInput>)
    requires owner in peers && d in peers && Canonical(e)
    ensures var (peers', fault) := SendInput(peers, owner, e);
            && fault.None? && Extends(peers, peers')
            && Drained(held, peers'[d].queue)
               == if d == owner then Observe(Drained(held, peers[d].queue), e) else Drained(held, peers[d].queue)
  {
    var sequence := NextSequence(peers[owner].sequence);
    var counted := peers[owner := peers[owner].(sequence := sequence)];
    WireRoundTripExact(sequence, e);
    var m := EncodeInput(sequence, e).value;
    assert Acceptable(m) && forall h :: Taken(h, m) == Observe(h, e);
    hide EncodeInput, DecodeInput, Taken, Acceptable, Observe, Canonical, Drained;
    assert counted.Keys == peers.Keys;
    EnqueueDrains(counted, owner, m, d, held);
  }

  // Executing one deliverable effect does on the wire what it owes to each device.
  lemma ExecuteOneDelivers(peers: Peers, t: ScreenTopology, effect: SessionEffect, d: DeviceId, held: set<HeldInput>)
    requires NamedByOwner(t) && Deliverable(peers.Keys, t, effect) && d in peers
    ensures var (peers', fault) := ExecutedOne(peers, t, effect);
            && fault.None? && Extends(peers, peers')
            && Drained(held, peers'[d].queue) == Owed(d, Drained(held, peers[d].queue), effect)
  {
    hide Drained, Observe, Canonical, SendInput, Enqueue;
    if effect.SendScreen? || effect.SendScreenMotion? || effect.EnterScreen? || effect.ReleaseScreen? {
      OwnerIsDevice(t, effect.screenId);
      var owner := OwnerOf(effect.screenId);
      if owner in peers {
        match effect
        case SendScreen(_, e) => SendDrains(peers, owner, e, d, held);
        case EnterScreen(_, x, y) => EnqueueDrains(peers, owner, EnterScreenAt(x, y), d, held);
        case ReleaseScreen(_) => EnqueueDrains(peers, owner, ReleaseAll, d, held);
        case _ =>
      }
    }
  }

  /** Executing a deliverable list never fails and leaves each device owing exactly its fold. */
  lemma {:induction false} ExecuteDelivers(peers: Peers, t: ScreenTopology, effects: seq<SessionEffect>, d: DeviceId,
                                           held: set<HeldInput>)
    requires NamedByOwner(t) && AllDeliverable(peers.Keys, t, effects) && d in peers
    ensures var (peers', fault) := Executed(peers, t, effects);
            && fault.None? && Extends(peers, peers')
            && Drained(held, peers'[d].queue) == DeviceFold(d, Drained(held, peers[d].queue), effects)
    decreases effects
  {
    hide Drained, Deliverable, ExecutedOne, Owed, NamedByOwner, Understood;
    if effects != [] {
      var peers' := ExecutedOne(peers, t, effects[0]).0;
      ExecuteOneDelivers(peers, t, effects[0], d, held);
      ExecuteDelivers(peers', t, effects[1..], d, held);
    }
  }

  lemma {:induction false} ExecutedConcat(peers: Peers, t: ScreenTopology, a: seq<SessionEffect>, b: seq<SessionEffect>)
    ensures var (peers', fault) := Executed(peers, t, a);
            Executed(peers, t, a + b) == if fault.Some? then (peers', fault) else Executed(peers', t, b)
    decreases a
  {
    hide ExecutedOne;
    if a == [] {
      assert a + b == b;
    } else {
      assert (a + b)[1..] == a[1..] + b;
      ExecutedConcat(ExecutedOne(peers, t, a[0]).0, t, a[1..], b);
    }
  }

  // Effects never add or remove a peer.
  lemma {:induction false} ExecutedKeys(peers: Peers, t: ScreenTopology, effects: seq<SessionEffect>)
    ensures Executed(peers, t, effects).0.Keys == peers.Keys
    decreases effects
  {
    if effects != [] {
      ExecutedOneKeys(peers, t, effects[0]);
      hide ExecutedOne;
      ExecutedKeys(ExecutedOne(peers, t, effects[0]).0, t, effects[1..]);
    }
  }

  lemma ExecutedOneKeys(peers: Peers, t: ScreenTopology, effect: SessionEffect)
    ensures ExecutedOne(peers, t, effect).0.Keys == peers.Keys
  {
  }

  lemma ReplacedKeys(sys: System, peers: Peers, t: ScreenTopology)
    ensures Replaced(sys, peers, t).Success? ==>
              Replaced(sys, peers, t).value.peers.Keys == peers.Keys && Replaced(sys, peers, t).value.topology == t
  {
    if sys.host.ReplaceTopology(t).Success? {
      ExecutedKeys(peers, t, sys.host.ReplaceTopology(t).value.1);
    }
    hide SessionState.ReplaceTopology, Executed;
  }

  lemma {:induction false} ExecuteEmpty(peers: Peers, t: ScreenTopology, effects: seq<SessionEffect>)
    requires NamedByOwner(t) && AllDeliverable(peers.Keys, t, effects)
    ensures Executed(peers, t, effects).1.None? && Extends(peers, Executed(peers, t, effects).0)
  {
    if d :| d in peers {
      ExecuteDelivers(peers, t, effects, d, {});
    } else {
      NoPeers(peers, t, effects);
    }
  }

  lemma {:induction false} NoPeers(peers: Peers, t: ScreenTopology, effects: seq<SessionEffect>)
    requires AllDeliverable(peers.Keys, t, effects) && peers.Keys == {}
    ensures Executed(peers, t, effects) == (peers, None)
    decreases effects
  {
    if effects != [] {
      NoPeers(peers, t, effects[1..]);
    }
  }
}
