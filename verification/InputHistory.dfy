/** What a session tells each machine, stated from what is typed and where the cursor is. */
module InputHistories {
  import opened MachineInts
  import opened Wrappers
  import opened ScreenModel
  import opened InputModel
  import opened TopologyRouting
  import CursorRouting
  import RouterGeometry
  import opened RouterOutcomes
  import Migration
  import opened DesktopSessions
  import opened InputOwnership
  import opened OwnershipRuns

  // ---------- What is held, from the inputs alone ----------

  // The event presses, releases or repeats this very input.
  predicate Concerns(e: InputEvent, h: HeldInput, state: ButtonState) {
    match e
    case KeyEvent(key, s) => h == HeldKey(key) && s == state
    case ButtonEvent(button, s) => h == HeldButton(button) && s == state
    case ScrollEvent(_, _) => false
  }

  function HeldAfter(es: seq<InputEvent>): set<HeldInput> {
    if es == [] then {} else Observe(HeldAfter(es[..|es| - 1]), es[|es| - 1])
  }

  /** An input is held exactly if it was pressed and has not been released since. */
  lemma {:induction false} HeldExact(es: seq<InputEvent>, h: HeldInput)
    ensures h in HeldAfter(es) <==>
              exists i :: 0 <= i < |es| && Concerns(es[i], h, Pressed)
                  && forall j | i < j < |es| :: !Concerns(es[j], h, Released)
  {
    if es != [] {
      var before, last := es[..|es| - 1], es[|es| - 1];
      HeldExact(before, h);
      assert h in HeldAfter(es) <==>
          Concerns(last, h, Pressed) || (h in HeldAfter(before) && !Concerns(last, h, Released));
      hide Concerns;
      if h in HeldAfter(before) && !Concerns(last, h, Released) {
        var i :| 0 <= i < |before| && Concerns(before[i], h, Pressed)
            && forall j | i < j < |before| :: !Concerns(before[j], h, Released);
        assert Concerns(es[i], h, Pressed);
        forall j | i < j < |es| ensures !Concerns(es[j], h, Released) {
          if j < |before| { assert es[j] == before[j]; }
        }
      }
      if i :| 0 <= i < |es| && Concerns(es[i], h, Pressed) && forall j | i < j < |es| :: !Concerns(es[j], h, Released) {
        if i < |before| {
          assert before[i] == es[i];
          assert forall j | i < j < |before| :: before[j] == es[j];
        }
      }
    }
  }

  function Typed(ev: HostEvent): seq<InputEvent> {
    if ev.Handle? && ev.event.PhysicalInput? then [ev.event.event] else []
  }

  // The physical inputs among the first `n` events.
  function InputsUpTo(evs: seq<HostEvent>, n: nat): seq<InputEvent>
    requires n <= |evs|
  {
    if n == 0 then [] else InputsUpTo(evs, n - 1) + Typed(evs[n - 1])
  }

  lemma HeldSnoc(es: seq<InputEvent>, e: InputEvent)
    ensures HeldAfter(es + [e]) == Observe(HeldAfter(es), e)
  {
    assert (es + [e])[..|es|] == es;
  }

  lemma NothingHeld()
    ensures HeldAfter([]) == {}
  {
  }

  // Nothing but physical input changes what is physically held.
  lemma HeldStep(s: SessionState, ev: HostEvent)
    requires s.Valid()
    ensures Step(s, ev).0.physicalHeld == if Typed(ev) == [] then s.physicalHeld
            else Observe(s.physicalHeld, Typed(ev)[0])
  {
    hide Ordered, LocalEvents, RemotePresses, CursorRouting.CursorState.Route, RouterState.Route, CheckTopology;
  }

  lemma {:induction false} HeldByHistory(s: SessionState, evs: seq<HostEvent>, n: nat)
    requires Initial(s) && n <= |evs|
    ensures StateAt(s, evs, n).physicalHeld == HeldAfter(InputsUpTo(evs, n))
  {
    NothingHeld();
    hide Step, HeldAfter, Observe;
    if n > 0 {
      HeldByHistory(s, evs, n - 1);
      HeldStep(StateAt(s, evs, n - 1), evs[n - 1]);
      if Typed(evs[n - 1]) != [] {
        HeldSnoc(InputsUpTo(evs, n - 1), Typed(evs[n - 1])[0]);
      } else {
        assert InputsUpTo(evs, n) == InputsUpTo(evs, n - 1);
      }
    }
  }

  // The repeat of a key that is not held.
  predicate Orphan(held: set<HeldInput>, e: InputEvent) {
    exists key :: e == KeyEvent(key, Repeated) && HeldKey(key) !in held
  }

  // ---------- Placing the cursor by hand ----------

  // Where the router puts the cursor on the active screen.
  function Position(s: SessionState): (I32, I32)
    requires !s.routing.NoRouting?
  {
    if s.routing.LegacyRouting? then (s.routing.cursor.x, s.routing.cursor.y)
    else (s.routing.router.x, s.routing.router.y)
  }

  function LocalSize(s: SessionState): ScreenSize
    requires Initial(s)
  {
    if s.routing.LegacyRouting? then s.routing.cursor.local else s.routing.router.Size()
  }

  // A legacy host starts in the middle of its own screen.
  lemma LegacyStart(local: ScreenSize, remote: ScreenSize, d: CursorRouting.ScreenDirection)
    ensures var s := NewLegacyHost(local, remote, d);
            && Initial(s) && LocalSize(s) == local && s.routing.cursor.remote == remote
            && s.routing.cursor.direction == d
            && 0 <= local.width - 2 * Position(s).0 <= 1 && 0 <= local.height - 2 * Position(s).1 <= 1
  {
  }

  /** Placed by hand before anything has happened, the cursor is on the nearest pixel of the local screen, and
      nothing else has changed. */
  lemma PlacedByHand(s: SessionState, x: I32, y: I32)
    requires Initial(s)
    ensures var s' := s.AtLocalPosition(x, y);
            && Initial(s') && s'.control.LocalControl? && Holder(s') == Here && LocalSize(s') == LocalSize(s)
            && Position(s') == (Nearest(x, LocalSize(s).width), Nearest(y, LocalSize(s).height))
            && s' == s.(routing := s'.routing)
  {
  }

  // ---------- Every input goes to the side in control ----------

  // The input an effect passes on, and to whom.
  function Carries(effect: SessionEffect): Option<(Target, InputEvent)> {
    match effect
    case InjectLocal(e) => Some((Here, e))
    case SendRemote(e) => Some((Peer, e))
    case SendScreen(id, e) => Some((Screen(id), e))
    case _ => None
  }

  /** A physical input, scroll, press, release or repeat, is passed on unchanged to the side in control,
      once and to nobody else; only the repeat of a key that is not held is dropped. */
  lemma InputDelivered(s: SessionState, e: InputEvent)
    requires Consistent(s)
    ensures Orphan(s.physicalHeld, e) ==> s.AfterInput(e) == (s, [])
    ensures !Orphan(s.physicalHeld, e) ==>
              |s.AfterInput(e).1| == 1 && Carries(s.AfterInput(e).1[0]) == Some((Holder(s), e))
  {
  }

  // The inputs are passed on one by one, each to its target.
  predicate PassedOn(effects: seq<SessionEffect>, meant: seq<(Target, InputEvent)>) {
    |effects| == |meant| && forall i | 0 <= i < |meant| :: Carries(effects[i]) == Some(meant[i])
  }

  // What an event types, unless it repeats a key that is not held, and which side has control.
  function MeantBy(s: SessionState, held: set<HeldInput>, ev: HostEvent): seq<(Target, InputEvent)> {
    if Typed(ev) == [] || Orphan(held, Typed(ev)[0]) then [] else [(Holder(s), Typed(ev)[0])]
  }

  function Meant(s: SessionState, evs: seq<HostEvent>, n: nat): seq<(Target, InputEvent)>
    requires s.Valid() && n <= |evs|
  {
    if n == 0 then []
    else Meant(s, evs, n - 1) + MeantBy(StateAt(s, evs, n - 1), HeldAfter(InputsUpTo(evs, n - 1)), evs[n - 1])
  }

  // The effects of the physical inputs among the first `n` events.
  function InputEffects(s: SessionState, evs: seq<HostEvent>, n: nat): seq<SessionEffect>
    requires s.Valid() && n <= |evs|
  {
    if n == 0 then []
    else InputEffects(s, evs, n - 1) + IfTyped(StateAt(s, evs, n - 1), evs[n - 1])
  }

  function IfTyped(s: SessionState, ev: HostEvent): seq<SessionEffect>
    requires s.Valid()
  {
    if Typed(ev) == [] then [] else Step(s, ev).1
  }

  lemma StepPassesOn(s: SessionState, ev: HostEvent)
    requires Consistent(s)
    ensures PassedOn(IfTyped(s, ev), MeantBy(s, s.physicalHeld, ev))
  {
    hide Consistent, Carries, Holder, Orphan, SessionState.AfterInput;
    if Typed(ev) != [] {
      InputDelivered(s, Typed(ev)[0]);
    }
  }

  lemma PassedOnConcat(a: seq<SessionEffect>, b: seq<SessionEffect>, m: seq<(Target, InputEvent)>,
                       n: seq<(Target, InputEvent)>)
    requires PassedOn(a, m) && PassedOn(b, n)
    ensures PassedOn(a + b, m + n)
  {
  }

  /** Over every run the inputs passed on are the inputs typed, in order, less the repeats of keys that are
      not held, each to the side in control at the time. */
  lemma {:induction false} TypedArrives(s: SessionState, evs: seq<HostEvent>, n: nat)
    requires Initial(s) && n <= |evs| && forall i | 0 <= i < |evs| :: HostSide(evs[i])
    ensures PassedOn(InputEffects(s, evs, n), Meant(s, evs, n))
  {
    hide Consistent, HostSide, HeldAfter, PassedOn, IfTyped, MeantBy, InputsUpTo, StateAt;
    if n == 0 {
      NothingPassedOn();
    } else {
      TypedArrives(s, evs, n - 1);
      ConsistentAt(s, evs, n - 1);
      HeldByHistory(s, evs, n - 1);
      var current := StateAt(s, evs, n - 1);
      StepPassesOn(current, evs[n - 1]);
      PassedOnConcat(InputEffects(s, evs, n - 1), IfTyped(current, evs[n - 1]), Meant(s, evs, n - 1),
          MeantBy(current, current.physicalHeld, evs[n - 1]));
    }
  }

  lemma ConsistentAt(s: SessionState, evs: seq<HostEvent>, n: nat)
    requires Initial(s) && n <= |evs| && forall i | 0 <= i < |evs| :: HostSide(evs[i])
    ensures Consistent(StateAt(s, evs, n))
  {
    OwnershipByReplay(s, evs, n);
  }

  lemma NothingPassedOn()
    ensures PassedOn([], [])
  {
  }

  /** A physical motion that does not cross is passed on unchanged to the side in control, once. */
  lemma MotionCarried(s: SessionState, m: Motion)
    requires Consistent(s) && !Crosses(s, m)
    ensures s.AfterMotion(m).1 == [match Holder(s)
                                   case Here => InjectLocalMotion(m.dx, m.dy)
                                   case Peer => SendRemoteMotion(m)
                                   case Screen(id) => SendScreenMotion(id, m)]
    ensures Holder(s.AfterMotion(m).0) == Holder(s)
  {
    hide RouterState.Pushed, RouterState.Reached, LinkedEdge, ScaleAxis, CursorRouting.CursorState.OutwardBy;
  }

  // ---------- What each machine is told ----------

  // What a machine can be told to do: to inject an input, to place its cursor, or to let everything go.
  datatype Order = Inject(event: InputEvent) | PlaceCursor(x: I32, y: I32) | LetGo

  datatype Party = ThisMachine | OnlyClient | ClientOf(device: DeviceId)

  predicate Serves(p: Party, t: Target) {
    match t
    case Here => p.ThisMachine?
    case Peer => p.OnlyClient?
    case Screen(id) => p == ClientOf(OwnerOf(id))
  }

  function ToldBy(p: Party, effect: SessionEffect): seq<Order> {
    match effect
    case InjectLocal(e) => if Serves(p, Here) then [Inject(e)] else []
    case SetLocalCursor(x, y) => if Serves(p, Here) then [PlaceCursor(x, y)] else []
    case SendRemote(e) => if Serves(p, Peer) then [Inject(e)] else []
    case EnterPeer(x, y) => if Serves(p, Peer) then [PlaceCursor(x, y)] else []
    case ReleasePeer => if Serves(p, Peer) then [LetGo] else []
    case SendScreen(id, e) => if Serves(p, Screen(id)) then [Inject(e)] else []
    case EnterScreen(id, x, y) => if Serves(p, Screen(id)) then [PlaceCursor(x, y)] else []
    case ReleaseScreen(id) => if Serves(p, Screen(id)) then [LetGo] else []
    case _ => []
  }

  function Told(p: Party, effects: seq<SessionEffect>): seq<Order>
    decreases effects
  {
    if effects == [] then [] else ToldBy(p, effects[0]) + Told(p, effects[1..])
  }

  lemma {:induction false} ToldConcat(p: Party, a: seq<SessionEffect>, b: seq<SessionEffect>)
    ensures Told(p, a + b) == Told(p, a) + Told(p, b)
    decreases a
  {
    if a == [] {
      assert a + b == b;
    } else {
      assert (a + b)[1..] == a[1..] + b;
      ToldConcat(p, a[1..], b);
    }
  }

  // ---------- What each machine ought to be told ----------

  // The motion is about to carry the cursor to the other side, or to another screen.
  predicate Crosses(s: SessionState, m: Motion)
    requires s.Valid()
  {
    match s.routing
    case NoRouting => false
    case LegacyRouting(c) => Migration.LegacyOpens(c, m.dx, m.dy)
    case ScreenRouting(r, _) => RouterGeometry.WillCross(r, m.dx, m.dy, Some(m.timestamp))
  }

  // The topology is followed, but the remote screen with the cursor is lost in it.
  predicate LosesScreen(s: SessionState, t: ScreenTopology) {
    && s.routing.ScreenRouting? && s.routing.router.active != s.routing.localScreen
    && CanFollow(s, t) && !OnlineAndLinked(t, s.routing.router.active)
  }

  // The cursor leaves the screen it is on and is placed on a screen.
  predicate Transfer(s: SessionState, ev: HostEvent)
    requires s.Valid()
  {
    match ev
    case Handle(PhysicalMotion(m)) => Crosses(s, m)
    case Replace(t) => LosesScreen(s, t)
    case _ => false
  }

  // One event for each held input, in ascending order.
  function Injections(held: set<HeldInput>, state: ButtonState): (orders: seq<Order>)
    ensures |orders| == |Ordered(held)|
    ensures forall i | 0 <= i < |orders| :: orders[i] == Inject(Ordered(held)[i].Event(state))
  {
    seq(|Ordered(held)|, i requires 0 <= i < |Ordered(held)| => Inject(Ordered(held)[i].Event(state)))
  }

  // The side that is left lets go of everything; on this machine that is done input by input. A local
  // screen linked to itself is left as if it were a remote one.
  function Leaving(s: SessionState, s': SessionState, p: Party): seq<Order> {
    if Holder(s) != Here then (if Serves(p, Holder(s)) then [LetGo] else [])
    else if Holder(s') != Here then (if p.ThisMachine? then Injections(s.localInjected, Released) else [])
    else if s.routing.ScreenRouting? && Serves(p, Screen(s.routing.localScreen)) then [LetGo]
    else []
  }

  // The side that is entered is told where the cursor is and presses all that is physically held.
  function Arriving(s': SessionState, p: Party): seq<Order>
    requires !s'.routing.NoRouting?
  {
    if Serves(p, Holder(s')) then
      [PlaceCursor(Position(s').0, Position(s').1)] + Injections(s'.physicalHeld, Pressed)
    else []
  }

  function Expected(s: SessionState, ev: HostEvent, p: Party): seq<Order>
    requires s.Valid() && !Step(s, ev).0.routing.NoRouting?
  {
    if Transfer(s, ev) then Leaving(s, Step(s, ev).0, p) + Arriving(Step(s, ev).0, p)
    else
      match ev
      case Handle(PhysicalInput(e)) => if !Orphan(s.physicalHeld, e) && Serves(p, Holder(s)) then [Inject(e)] else []
      case Handle(EnterArrived(x, y)) => if p.ThisMachine? then [PlaceCursor(x, y)] else []
      case Handle(PhysicalMotion(_)) => []
      case Handle(MotionArrived(_)) => []
      case Handle(InputArrived(e)) => if p.ThisMachine? then [Inject(e)] else []
      case Handle(_) =>
        (if p.ThisMachine? then Injections(s.localInjected, Released) else [])
        + (if Holder(s) != Here && Serves(p, Holder(s)) && s.remoteInjected != {} then [LetGo] else [])
      case Replace(_) => []
  }

  lemma {:induction false} LocalEventsTold(p: Party, hs: seq<HeldInput>, state: ButtonState)
    ensures p.ThisMachine? ==>
              && |Told(p, LocalEvents(hs, state))| == |hs|
              && forall i | 0 <= i < |hs| :: Told(p, LocalEvents(hs, state))[i] == Inject(hs[i].Event(state))
    ensures !p.ThisMachine? ==> Told(p, LocalEvents(hs, state)) == []
  {
    if hs != [] {
      LocalEventsTold(p, hs[1..], state);
      assert LocalEvents(hs, state)[1..] == LocalEvents(hs[1..], state);
    }
  }

  lemma {:induction false} PressesTold(p: Party, dest: Option<ScreenId>, hs: seq<HeldInput>)
    ensures Serves(p, TargetOf(dest)) ==>
              && |Told(p, RemotePresses(dest, hs))| == |hs|
              && forall i | 0 <= i < |hs| :: Told(p, RemotePresses(dest, hs))[i] == Inject(hs[i].Event(Pressed))
    ensures !Serves(p, TargetOf(dest)) ==> Told(p, RemotePresses(dest, hs)) == []
  {
    if hs != [] {
      PressesTold(p, dest, hs[1..]);
      assert RemotePresses(dest, hs)[1..] == RemotePresses(dest, hs[1..]);
    }
  }

  lemma ReleasesTold(p: Party, held: set<HeldInput>, state: ButtonState)
    ensures Told(p, LocalEvents(Ordered(held), state)) == if p.ThisMachine? then Injections(held, state) else []
  {
    LocalEventsTold(p, Ordered(held), state);
  }

  lemma ArrivalTold(p: Party, dest: Option<ScreenId>, held: set<HeldInput>)
    ensures Told(p, RemotePresses(dest, Ordered(held)))
            == if Serves(p, TargetOf(dest)) then Injections(held, Pressed) else []
  {
    PressesTold(p, dest, Ordered(held));
  }

  lemma OneTold(p: Party, effect: SessionEffect)
    ensures Told(p, [effect]) == ToldBy(p, effect)
  {
  }

  lemma ComeHomeTold(p: Party, s: SessionState, release: SessionEffect, x: I32, y: I32)
    ensures Told(p, s.ComeHome(release, x, y).1)
            == ToldBy(p, release)
               + if p.ThisMachine? then [PlaceCursor(x, y)] + Injections(s.physicalHeld, Pressed) else []
    ensures s.ComeHome(release, x, y).0.routing == s.routing
            && s.ComeHome(release, x, y).0.physicalHeld == s.physicalHeld
  {
    hide LocalEvents, Ordered, Injections, Told;
    var presses := LocalEvents(Ordered(s.physicalHeld), Pressed);
    var rest := [SetLocalCursor(x, y)] + presses + [ControlChanged(LocalControl)];
    assert s.ComeHome(release, x, y).1 == [release] + rest;
    HomecomingTold(p, s.physicalHeld, x, y);
    ToldConcat(p, [release], rest);
    OneTold(p, release);
    hide ToldBy;
  }

  lemma HomecomingTold(p: Party, held: set<HeldInput>, x: I32, y: I32)
    ensures Told(p, [SetLocalCursor(x, y)] + LocalEvents(Ordered(held), Pressed) + [ControlChanged(LocalControl)])
            == if p.ThisMachine? then [PlaceCursor(x, y)] + Injections(held, Pressed) else []
  {
    hide LocalEvents, Ordered, Injections, Told;
    var presses := LocalEvents(Ordered(held), Pressed);
    ReleasesTold(p, held, Pressed);
    ToldConcat(p, [SetLocalCursor(x, y)] + presses, [ControlChanged(LocalControl)]);
    ToldConcat(p, [SetLocalCursor(x, y)], presses);
    OneTold(p, SetLocalCursor(x, y));
    OneTold(p, ControlChanged(LocalControl));
  }

  lemma GoOutTold(p: Party, s: SessionState, previous: Option<ScreenId>, dest: Option<ScreenId>, x: I32, y: I32)
    ensures var wasRemote := previous.Some? && s.control == RemoteControl;
            Told(p, s.GoOut(previous, dest, x, y).1)
            == (if wasRemote then ToldBy(p, ReleaseScreen(previous.value))
                else if p.ThisMachine? then Injections(s.localInjected, Released) else [])
               + if Serves(p, TargetOf(dest)) then [PlaceCursor(x, y)] + Injections(s.physicalHeld, Pressed) else []
    ensures s.GoOut(previous, dest, x, y).0.routing == s.routing
    ensures s.GoOut(previous, dest, x, y).0.physicalHeld == s.physicalHeld
  {
    var wasRemote := previous.Some? && s.control == RemoteControl;
    var releases := if wasRemote then [ReleaseScreen(previous.value)]
        else LocalEvents(Ordered(s.localInjected), Released);
    var tail := if wasRemote then [] else [ControlChanged(RemoteControl)];
    var rest := [EnterAt(dest, x, y)] + RemotePresses(dest, Ordered(s.physicalHeld)) + tail;
    assert s.GoOut(previous, dest, x, y).1 == releases + rest;
    ReleasesTold(p, s.localInjected, Released);
    EntryTold(p, dest, s.physicalHeld, x, y, tail);
    ToldConcat(p, releases, rest);
    if wasRemote { OneTold(p, ReleaseScreen(previous.value)); }
    hide LocalEvents, RemotePresses, Ordered, Injections, Told, ToldBy, Serves;
  }

  lemma EntryTold(p: Party, dest: Option<ScreenId>, held: set<HeldInput>, x: I32, y: I32, tail: seq<SessionEffect>)
    requires tail == [] || tail == [ControlChanged(RemoteControl)]
    ensures Told(p, [EnterAt(dest, x, y)] + RemotePresses(dest, Ordered(held)) + tail)
            == if Serves(p, TargetOf(dest)) then [PlaceCursor(x, y)] + Injections(held, Pressed) else []
  {
    hide LocalEvents, RemotePresses, Ordered, Injections;
    var presses := RemotePresses(dest, Ordered(held));
    ArrivalTold(p, dest, held);
    ToldConcat(p, [EnterAt(dest, x, y)] + presses, tail);
    ToldConcat(p, [EnterAt(dest, x, y)], presses);
    OneTold(p, EnterAt(dest, x, y));
    assert Told(p, tail) == [];
    hide Told;
  }

  lemma MotionTold(s: SessionState, m: Motion, p: Party)
    requires Consistent(s)
    ensures !s.AfterMotion(m).0.routing.NoRouting?
    ensures Told(p, s.AfterMotion(m).1) == Expected(s, Handle(PhysicalMotion(m)), p)
  {
    if !Crosses(s, m) {
      MotionCarried(s, m);
    } else if s.routing.LegacyRouting? {
      LegacyMotionTold(s, m, p);
    } else {
      ScreenMotionTold(s, m, p);
    }
  }

  lemma LegacyMotionTold(s: SessionState, m: Motion, p: Party)
    requires Consistent(s) && Crosses(s, m) && s.routing.LegacyRouting?
    ensures !s.AfterMotion(m).0.routing.NoRouting?
    ensures Told(p, s.AfterMotion(m).1) == Leaving(s, s.AfterMotion(m).0, p) + Arriving(s.AfterMotion(m).0, p)
  {
    var (route, cursor) := s.routing.cursor.Route(m.dx, m.dy);
    var moved := s.(routing := LegacyRouting(cursor));
    hide Ordered, LocalEvents, RemotePresses, Injections, Told, CursorRouting.CursorState.OutwardBy,
      CursorRouting.EntryCoordinate;
    match route
    case EnterRemote(x, y) => GoOutTold(p, moved, None, None, x, y);
    case EnterLocal(x, y) => ComeHomeTold(p, moved, ReleasePeer, x, y);
  }

  lemma ScreenMotionTold(s: SessionState, m: Motion, p: Party)
    requires Consistent(s) && Crosses(s, m) && s.routing.ScreenRouting?
    ensures !s.AfterMotion(m).0.routing.NoRouting?
    ensures Told(p, s.AfterMotion(m).1) == Leaving(s, s.AfterMotion(m).0, p) + Arriving(s.AfterMotion(m).0, p)
  {
    hide Ordered, LocalEvents, RemotePresses, Injections, Told, RouterState.Route, OwnerOf, RouterGeometry.WillCross,
      SessionState.GoOut, SessionState.ComeHome;
    var router, localScreen := s.routing.router, s.routing.localScreen;
    var (route, router') := router.Route(m.dx, m.dy, Some(m.timestamp));
    var moved := s.(routing := ScreenRouting(router', localScreen));
    CrossingRoutes(router, m.dx, m.dy, Some(m.timestamp));
    if route.screenId == localScreen {
      ComeHomeTold(p, moved, ReleaseScreen(router.active), route.x, route.y);
    } else {
      GoOutTold(p, moved, Some(router.active), Some(route.screenId), route.x, route.y);
    }
  }

  lemma CrossingRoutes(r: RouterState, dx: I32, dy: I32, now: Option<U64>)
    requires r.Placed() && RouterGeometry.WillCross(r, dx, dy, now)
    ensures var (route, next) := r.Route(dx, dy, now);
            route.Cross? && next.active == route.screenId && next.x == route.x && next.y == route.y
  {
  }

  // A followed topology that loses the screen with the cursor brings it to the middle of the local one.
  lemma ReplaceTold(s: SessionState, t: ScreenTopology, p: Party)
    requires Consistent(s)
    ensures !Step(s, Replace(t)).0.routing.NoRouting?
    ensures Told(p, Step(s, Replace(t)).1) == Expected(s, Replace(t), p)
  {
    if s.ReplaceTopology(t).Success? {
      ReplacedTold(s, t, p);
    } else if s.routing.ScreenRouting? {
      ReplaceAcceptedExactly(s, t);
    }
    hide SessionState.ReplaceTopology, CanFollow, OnlineAndLinked;
  }

  lemma ReplacedTold(s: SessionState, t: ScreenTopology, p: Party)
    requires Consistent(s) && s.ReplaceTopology(t).Success?
    ensures !Step(s, Replace(t)).0.routing.NoRouting?
    ensures Told(p, Step(s, Replace(t)).1) == Expected(s, Replace(t), p)
  {
    CheckTopologyExact(t);
    var router, localScreen := s.routing.router, s.routing.localScreen;
    ReplaceAcceptedExactly(s, t);
    RoutableExact(t, router.active);
    if router.active != localScreen && !Routable(t, router.active) {
      LossTold(s, t, p);
    }
    hide ValidTopology, CheckTopology, Routable, OnlineAndLinked, CanFollow, Ordered, LocalEvents, Injections,
      OwnerOf;
  }

  lemma LossTold(s: SessionState, t: ScreenTopology, p: Party)
    requires Consistent(s) && s.ReplaceTopology(t).Success? && LosesScreen(s, t)
    ensures var (s', effects) := s.ReplaceTopology(t).value;
            !s'.routing.NoRouting? && Told(p, effects) == Leaving(s, s', p) + Arriving(s', p)
  {
    var router, localScreen := s.routing.router, s.routing.localScreen;
    RoutableExact(t, router.active);
    LostScreenComesHome(s, t);
    FindOnlineExact(t, localScreen);
    var size := SizeOf(t, localScreen);
    var moved := s.(routing := s.ReplaceTopology(t).value.0.routing);
    ComeHomeTold(p, moved, ReleaseScreen(router.active), size.width / 2, size.height / 2);
    hide ValidTopology, CheckTopology, Routable, OnlineAndLinked, Ordered, LocalEvents, Injections, OwnerOf, Told,
      RouterState.Positioned, RouterState.Replaced, SessionState.ComeHome;
    assert s.ReplaceTopology(t).value == moved.ComeHome(ReleaseScreen(router.active), size.width / 2, size.height / 2);
  }

  lemma ReleaseTold(s: SessionState, ev: HostEvent, p: Party)
    requires Consistent(s) && IsRelease(ev)
    ensures Told(p, Step(s, ev).1) == Expected(s, ev, p)
  {
    hide Ordered, LocalEvents, Injections, OwnerOf, Told, Observe;
    var releases := LocalEvents(Ordered(s.localInjected), Released);
    var tail := if s.remoteInjected != {} then [ReleaseAt(s.ActiveRemote())] else [];
    ReleasesTold(p, s.localInjected, Released);
    ToldConcat(p, releases, tail);
    RemoteReleaseTold(s, p);
    assert Step(s, ev).1 == releases + tail;
    assert Told(p, tail)
        == if Holder(s) != Here && Serves(p, Holder(s)) && s.remoteInjected != {} then [LetGo] else [];
    hide Consistent, SessionState.AfterRelease, Serves, Holder;
  }

  lemma RemoteReleaseTold(s: SessionState, p: Party)
    requires Consistent(s)
    ensures Told(p, []) == []
    ensures s.remoteInjected != {} ==>
              Holder(s) != Here
              && Told(p, [ReleaseAt(s.ActiveRemote())]) == if Serves(p, Holder(s)) then [LetGo] else []
  {
    OneTold(p, ReleaseAt(s.ActiveRemote()));
    hide OwnerOf;
  }

  /** Every event tells every machine exactly this: nothing, unless it is the one typed at, left, entered or
      told to release. */
  lemma StepTold(s: SessionState, ev: HostEvent, p: Party)
    requires Consistent(s) && HostSide(ev)
    ensures !Step(s, ev).0.routing.NoRouting?
    ensures Told(p, Step(s, ev).1) == Expected(s, ev, p)
  {
    if ev.Replace? {
      ReplaceTold(s, ev.topology, p);
    } else if ev.event.PhysicalMotion? {
      MotionTold(s, ev.event.motion, p);
    } else if IsRelease(ev) {
      ReleaseTold(s, ev, p);
    } else {
      hide Ordered, LocalEvents, Injections, OwnerOf;
      if ev.event.PhysicalInput? { InputDelivered(s, ev.event.event); }
    }
    hide SessionState.AfterMotion, SessionState.AfterRelease, Expected;
  }

  // What each machine ought to have been told over the first `n` events.
  function ExpectedUpTo(s: SessionState, evs: seq<HostEvent>, n: nat, p: Party): seq<Order>
    requires Initial(s) && n <= |evs| && forall i | 0 <= i < |evs| :: HostSide(evs[i])
  {
    if n == 0 then []
    else
      ConsistentAt(s, evs, n - 1);
      StepTold(StateAt(s, evs, n - 1), evs[n - 1], p);
      ExpectedUpTo(s, evs, n - 1, p) + Expected(StateAt(s, evs, n - 1), evs[n - 1], p)
  }

  /** Over every run, every machine is told what it ought to be, in that order and nothing else. */
  lemma {:induction false} RunTold(s: SessionState, evs: seq<HostEvent>, n: nat, p: Party)
    requires Initial(s) && n <= |evs| && forall i | 0 <= i < |evs| :: HostSide(evs[i])
    ensures Told(p, EffectsUpTo(s, evs, n)) == ExpectedUpTo(s, evs, n, p)
  {
    hide Consistent, HostSide, Expected, StateAt, Step;
    if n > 0 {
      RunTold(s, evs, n - 1, p);
      ConsistentAt(s, evs, n - 1);
      StepTold(StateAt(s, evs, n - 1), evs[n - 1], p);
      ToldConcat(p, EffectsUpTo(s, evs, n - 1), Step(StateAt(s, evs, n - 1), evs[n - 1]).1);
    }
  }
}
