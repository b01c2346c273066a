/** The numbers on a stream: inputs and heartbeats each count up one by one, wrapping around. */
module Numberings {
  import opened MachineInts
  import opened Wrappers
  import opened ScreenModel
  import opened InputModel
  import opened TopologyRouting
  import opened DesktopSessions
  import opened InputOwnership
  import opened OwnershipRuns
  import opened WireProtocol
  import opened HostClient
  import opened Composition
  import opened Deliveries

  datatype Kind = Inputs | Heartbeats

  function NumberOf(m: ReliableEvent, kind: Kind): Option<U64> {
    if m.Input? && kind.Inputs? then Some(m.sequence)
    else if m.Heartbeat? && kind.Heartbeats? then Some(m.sequence)
    else None
  }

  // The messages of this kind carry consecutive numbers that end in `last`.
  predicate CountsUpTo(queue: seq<ReliableEvent>, kind: Kind, last: U64) {
    queue == [] ||
    var number := NumberOf(queue[|queue| - 1], kind);
    if number.None? then CountsUpTo(queue[..|queue| - 1], kind, last)
    else number.value == last && CountsUpTo(queue[..|queue| - 1], kind, if last == 0 then U64_MAX else last - 1)
  }

  predicate WellNumbered(c: Connection) {
    CountsUpTo(c.queue, Inputs, c.sequence) && CountsUpTo(c.queue, Heartbeats, c.heartbeat)
  }

  predicate AllNumbered(peers: Peers) {
    forall d | d in peers :: WellNumbered(peers[d])
  }

  /** The numbers of any two neighbouring messages of a kind differ by one, wrapping around. */
  lemma {:induction false} NumbersAreConsecutive(queue: seq<ReliableEvent>, kind: Kind, last: U64, i: nat, j: nat)
    requires CountsUpTo(queue, kind, last) && i < j < |queue|
    requires NumberOf(queue[i], kind).Some? && NumberOf(queue[j], kind).Some?
    requires forall k | i < k < j :: NumberOf(queue[k], kind).None?
    ensures NumberOf(queue[j], kind).value == (NumberOf(queue[i], kind).value + 1) % 0x1_0000_0000_0000_0000
  {
    var shorter, number := queue[..|queue| - 1], NumberOf(queue[|queue| - 1], kind);
    if j < |queue| - 1 {
      NumbersAreConsecutive(shorter, kind,
          if number.None? then last else if last == 0 then U64_MAX else last - 1, i, j);
    } else {
      LastNumber(shorter, kind, if last == 0 then U64_MAX else last - 1, i);
    }
  }

  // The last message of a kind carries the last number.
  lemma {:induction false} LastNumber(queue: seq<ReliableEvent>, kind: Kind, last: U64, i: nat)
    requires CountsUpTo(queue, kind, last) && i < |queue| && NumberOf(queue[i], kind).Some?
    requires forall k | i < k < |queue| :: NumberOf(queue[k], kind).None?
    ensures NumberOf(queue[i], kind) == Some(last)
  {
    if i < |queue| - 1 {
      LastNumber(queue[..|queue| - 1], kind, last, i);
    }
  }

  lemma CountsAppend(queue: seq<ReliableEvent>, kind: Kind, last: U64, m: ReliableEvent)
    requires CountsUpTo(queue, kind, last)
    ensures NumberOf(m, kind).None? ==> CountsUpTo(queue + [m], kind, last)
    ensures NumberOf(m, kind) == Some(NextSequence(last)) ==> CountsUpTo(queue + [m], kind, NextSequence(last))
  {
    assert (queue + [m])[..|queue|] == queue;
  }

  lemma {:induction false} CountsTail(queue: seq<ReliableEvent>, kind: Kind, last: U64)
    requires CountsUpTo(queue, kind, last) && queue != []
    ensures CountsUpTo(queue[1..], kind, last)
  {
    if |queue| > 1 {
      var shorter, number := queue[..|queue| - 1], NumberOf(queue[|queue| - 1], kind);
      assert queue[1..][..|queue| - 2] == shorter[1..];
      CountsTail(shorter, kind, if number.None? then last else if last == 0 then U64_MAX else last - 1);
    }
  }

  lemma UnnumberedAppend(peers: Peers, d: DeviceId, m: ReliableEvent)
    requires d in peers && AllNumbered(peers) && !m.Input? && !m.Heartbeat?
    ensures AllNumbered(Enqueue(peers, d, m))
  {
    CountsAppend(peers[d].queue, Inputs, peers[d].sequence, m);
    CountsAppend(peers[d].queue, Heartbeats, peers[d].heartbeat, m);
    hide CountsUpTo;
  }

  lemma SendNumbers(peers: Peers, d: DeviceId, e: InputEvent)
    requires d in peers && AllNumbered(peers) && Canonical(e)
    ensures AllNumbered(SendInput(peers, d, e).0)
  {
    var sequence := NextSequence(peers[d].sequence);
    WireRoundTripExact(sequence, e);
    var m := EncodeInput(sequence, e).value;
    assert m.Input? && m.sequence == sequence;
    CountsAppend(peers[d].queue, Inputs, peers[d].sequence, m);
    CountsAppend(peers[d].queue, Heartbeats, peers[d].heartbeat, m);
    hide CountsUpTo, EncodeInput, DecodeInput, Canonical, NextSequence;
  }

  lemma EffectNumbers(peers: Peers, t: ScreenTopology, effect: SessionEffect)
    requires NamedByOwner(t) && AllNumbered(peers) && Deliverable(peers.Keys, t, effect)
    ensures AllNumbered(ExecutedOne(peers, t, effect).0)
    ensures ExecutedOne(peers, t, effect).1.None?
  {
    hide AllNumbered, SendInput, Enqueue, OwnerOf, Canonical;
    if effect.SendScreen? || effect.SendScreenMotion? || effect.EnterScreen? || effect.ReleaseScreen? {
      OwnerIsDevice(t, effect.screenId);
      var owner := OwnerOf(effect.screenId);
      if owner in peers {
        ExecuteOneDelivers(peers, t, effect, owner, {});
        match effect
        case SendScreen(_, e) => SendNumbers(peers, owner, e);
        case EnterScreen(_, x, y) => UnnumberedAppend(peers, owner, EnterScreenAt(x, y));
        case ReleaseScreen(_) => UnnumberedAppend(peers, owner, ReleaseAll);
        case _ =>
      }
    }
  }

  lemma {:induction false} EffectsNumber(peers: Peers, t: ScreenTopology, effects: seq<SessionEffect>)
    requires NamedByOwner(t) && AllNumbered(peers) && AllDeliverable(peers.Keys, t, effects)
    ensures AllNumbered(Executed(peers, t, effects).0)
    decreases effects
  {
    hide ExecutedOne, AllNumbered, NamedByOwner, Deliverable;
    if effects != [] {
      EffectNumbers(peers, t, effects[0]);
      ExecutedOneKeys(peers, t, effects[0]);
      assert forall i | 0 <= i < |effects[1..]| :: effects[1..][i] == effects[i + 1];
      EffectsNumber(ExecutedOne(peers, t, effects[0]).0, t, effects[1..]);
    }
  }

  lemma HostStepNumbers(sys: System, ev: SystemEvent)
    requires Sound(sys) && Enabled(sys, ev) && Admissible(ev) && WellTyped(sys) && Next(sys, ev).Success?
    requires HostEventOf(sys, ev).Some? && AllNumbered(sys.peers)
    ensures AllNumbered(Next(sys, ev).value.peers)
  {
    hide SessionState.Handle, SessionState.ReplaceTopology, Executed, AllDeliverable, NamedByOwner, AllOffline,
      Attended, PeersSound;
    if TopologyOf(ev).None? {
      var event := HostEventOf(sys, ev).value.event;
      HandledExact(sys, event);
      HandledDeliverable(sys, event);
      EffectsNumber(sys.peers, sys.topology, sys.host.Handle(event).1);
    } else {
      var t, peers := TopologyOf(ev).value, if ev.Disconnect? then sys.peers - {ev.device} else sys.peers;
      ReplaceDeliverable(sys.host, t, peers.Keys);
      EffectsNumber(peers, t, sys.host.ReplaceTopology(t).value.1);
    }
  }

  lemma TakeNumbers(c: Connection)
    requires ClientSound(c) && c.queue != [] && WellNumbered(c)
    ensures WellNumbered(Take(c.(queue := c.queue[1..]), c.queue[0]))
  {
    CountsTail(c.queue, Inputs, c.sequence);
    CountsTail(c.queue, Heartbeats, c.heartbeat);
    hide CountsUpTo, SessionState.Handle, DecodeInput;
  }

  lemma BeatNumbers(c: Connection)
    requires WellNumbered(c)
    ensures WellNumbered(Beaten(c))
  {
    CountsAppend(c.queue, Inputs, c.sequence, Heartbeat(NextSequence(c.heartbeat)));
    CountsAppend(c.queue, Heartbeats, c.heartbeat, Heartbeat(NextSequence(c.heartbeat)));
    hide CountsUpTo;
  }

  lemma ReportNumbers(c: Connection, screens: seq<WireScreen>)
    requires WellNumbered(c)
    ensures WellNumbered(Informed(c, screens))
  {
    CountsAppend(c.queue, Inputs, c.sequence, ScreenInventory(screens));
    CountsAppend(c.queue, Heartbeats, c.heartbeat, ScreenInventory(screens));
    hide CountsUpTo;
  }

  lemma StepNumbers(sys: System, ev: SystemEvent)
    requires Sound(sys) && Enabled(sys, ev) && Admissible(ev) && WellTyped(sys) && Next(sys, ev).Success?
    requires AllNumbered(sys.peers)
    ensures AllNumbered(Next(sys, ev).value.peers)
  {
    hide WellNumbered, HostSound, SessionState.Handle, SessionState.ReplaceTopology, Executed, Take, Receive,
      NamedByOwner, AllOffline;
    if HostEventOf(sys, ev).Some? {
      HostStepNumbers(sys, ev);
    } else {
      match ev
      case Stop =>
      case Deliver(d) => TakeNumbers(sys.peers[d]);
      case Datagram(d, m) => MotionNumbers(sys.peers[d], m);
      case Beat => forall d | d in sys.peers { BeatNumbers(sys.peers[d]); }
      case Report(screens) => forall d | d in sys.peers { ReportNumbers(sys.peers[d], screens); }
    }
  }

  lemma MotionNumbers(c: Connection, m: Motion)
    requires ClientSound(c) && WellNumbered(c)
    ensures WellNumbered(Receive(c, MotionArrived(m)))
  {
    hide CountsUpTo, SessionState.Handle;
  }

  /** In every reachable state the inputs under way to a client carry consecutive numbers ending in the one
      used last, and so do the heartbeats. */
  lemma {:induction false} StreamsAreNumbered(states: seq<System>, evs: seq<SystemEvent>, n: nat, d: DeviceId)
    requires IsRun(states, evs) && n <= |evs| && d in states[n].peers
    ensures CountsUpTo(states[n].peers[d].queue, Inputs, states[n].peers[d].sequence)
    ensures CountsUpTo(states[n].peers[d].queue, Heartbeats, states[n].peers[d].heartbeat)
  {
    AllStreamsNumbered(states, evs, n);
  }

  lemma {:induction false} AllStreamsNumbered(states: seq<System>, evs: seq<SystemEvent>, n: nat)
    requires IsRun(states, evs) && n <= |evs|
    ensures AllNumbered(states[n].peers)
  {
    if n > 0 {
      hide Sound, Initial, NamedByOwner, Next, Enabled, Admissible, WellTyped, AllNumbered;
      AllStreamsNumbered(states, evs, n - 1);
      RunStep(states, evs, n - 1);
      StepNumbers(states[n - 1], evs[n - 1]);
    }
  }

  /** A heartbeat, and a report of the host's screens, reach every client, whatever else is under way. */
  lemma BroadcastsReachAll(sys: System, screens: seq<WireScreen>, d: DeviceId)
    requires Sound(sys) && WellTyped(sys) && d in sys.peers
    ensures Next(sys, Beat).Success? && d in Next(sys, Beat).value.peers
    ensures Next(sys, Report(screens)).Success? && d in Next(sys, Report(screens)).value.peers
    ensures Next(sys, Beat).value.peers[d].queue
            == sys.peers[d].queue + [Heartbeat((sys.peers[d].heartbeat + 1) % 0x1_0000_0000_0000_0000)]
    ensures Next(sys, Report(screens)).value.peers[d].queue == sys.peers[d].queue + [ScreenInventory(screens)]
  {
    hide Sound;
  }
}
