/** The legacy router between one local and one remote screen lying in a fixed direction. */
module CursorRouting {
  import opened MachineInts
  import opened Wrappers
  import opened ScreenModel
  import opened EdgeBarriers
  import opened TopologyRouting

  datatype ScreenDirection =
    | Top | TopRight | Right | BottomRight | Bottom | BottomLeft | Left | TopLeft

  datatype ActiveScreen = LocalScreen | RemoteScreen

  datatype CursorRoute =
    | LocalMotion(dx: I32, dy: I32)
    | RemoteMotion(dx: I32, dy: I32)
    | EnterRemote(x: I32, y: I32)
    | EnterLocal(x: I32, y: I32)

  // How far a motion leaves the screen toward the other one, if it does at all.
  function OutwardDistance(direction: ScreenDirection, x: I32, y: I32, size: ScreenSize, dx: I32, dy: I32,
                           returning: bool)
    : Option<I32>
  {
    var left := x == 0 && dx < 0;
    var right := x == size.width - 1 && dx > 0;
    var top := y == 0 && dy < 0;
    var bottom := y == size.height - 1 && dy > 0;
    match (direction, returning)
    case (Right, false) => if right then Some(dx) else None
    case (Right, true) => if left then Some(SatAbs(dx)) else None
    case (Left, false) => if left then Some(SatAbs(dx)) else None
    case (Left, true) => if right then Some(dx) else None
    case (Top, false) => if top then Some(SatAbs(dy)) else None
    case (Top, true) => if bottom then Some(dy) else None
    case (Bottom, false) => if bottom then Some(dy) else None
    case (Bottom, true) => if top then Some(SatAbs(dy)) else None
    case (TopRight, false) => if right && top then Some(Min(dx, SatAbs(dy))) else None
    case (TopRight, true) => if left && bottom then Some(Min(SatAbs(dx), dy)) else None
    case (BottomRight, false) => if right && bottom then Some(Min(dx, dy)) else None
    case (BottomRight, true) => if left && top then Some(Min(SatAbs(dx), SatAbs(dy))) else None
    case (BottomLeft, false) => if left && bottom then Some(Min(SatAbs(dx), dy)) else None
    case (BottomLeft, true) => if right && top then Some(Min(dx, SatAbs(dy))) else None
    case (TopLeft, false) => if left && top then Some(Min(SatAbs(dx), SatAbs(dy))) else None
    case (TopLeft, true) => if right && bottom then Some(Min(dx, dy)) else None
  }

  // ---------- The router as a value ----------

  // The side a direction lies on along each axis: before (-1), beside (0) or after (1).
  function SideX(d: ScreenDirection): int {
    if d.Right? || d.TopRight? || d.BottomRight? then 1 else if d.Left? || d.TopLeft? || d.BottomLeft? then -1 else 0
  }

  function SideY(d: ScreenDirection): int {
    if d.Bottom? || d.BottomLeft? || d.BottomRight? then 1 else if d.Top? || d.TopLeft? || d.TopRight? then -1 else 0
  }

  // Going after one enters near the start, going before one enters near the end.
  function EntryCoordinate(side: int, next: I32, source: I32, target: I32): I32
    requires source > 0 && target > 0
  {
    if side > 0 then Min(1, target - 1)
    else if side < 0 then SatSub(target, 2)
    else ScaleAxis(Clamp(next, 0, source - 1), source, target)
  }

  datatype CursorState = CursorState(
    local: ScreenSize,
    remote: ScreenSize,
    direction: ScreenDirection,
    active: ActiveScreen,
    x: I32,
    y: I32,
    barrier: Barrier<ScreenDirection>)
  {
    function Size(): ScreenSize {
      if active.LocalScreen? then local else remote
    }

    function OtherSize(): ScreenSize {
      if active.LocalScreen? then remote else local
    }

    function OutwardBy(dx: I32, dy: I32): Option<I32> {
      OutwardDistance(direction, x, y, Size(), dx, dy, active.RemoteScreen?)
    }

    function MovedBy(dx: I32, dy: I32): CursorState {
      this.(x := ClampX(SatAdd(x, dx), Size()), y := ClampY(SatAdd(y, dy), Size()))
    }

    function Crossed(dx: I32, dy: I32): CursorState {
      var turn := if active.LocalScreen? then 1 else -1;
      this.(active := if active.LocalScreen? then RemoteScreen else LocalScreen,
            x := EntryCoordinate(turn * SideX(direction), SatAdd(x, dx), Size().width, OtherSize().width),
            y := EntryCoordinate(turn * SideY(direction), SatAdd(y, dy), Size().height, OtherSize().height),
            barrier := Idle())
    }

    function Route(dx: I32, dy: I32): (CursorRoute, CursorState) {
      var outward := OutwardBy(dx, dy);
      var (open, barrier') := if outward.Some? then barrier.Push(direction, outward.value) else (false, Idle());
      if open then
        var next := Crossed(dx, dy);
        (if next.active.RemoteScreen? then EnterRemote(next.x, next.y) else EnterLocal(next.x, next.y), next)
      else
        (if active.LocalScreen? then LocalMotion(dx, dy) else RemoteMotion(dx, dy),
         MovedBy(dx, dy).(barrier := barrier'))
    }

    function Positioned(px: I32, py: I32): CursorState {
      this.(active := LocalScreen, x := ClampX(px, local), y := ClampY(py, local), barrier := Idle())
    }
  }

  // Which way the other screen lies, seen from the active one.
  function Turn(c: CursorState): int {
    if c.active.LocalScreen? then 1 else -1
  }

  // On this axis the other screen lies to neither side, or the cursor is pushed out of the border facing it.
  predicate OutOn(side: int, v: int, length: int, d: int) {
    side == 0 || (side < 0 && v == 0 && d < 0) || (side > 0 && v + 1 == length && d > 0)
  }

  // The pixels of a step; the longest one backward counts one less.
  function Pixels(d: I32): int {
    if d == -0x8000_0000 then 0x7FFF_FFFF else if d < 0 then -d else d
  }

  /** A motion counts toward the other screen exactly if the cursor is pushed out of every border that faces it,
      of both at once in a diagonal direction; it then counts by its pixels that way, the lesser of the two. */
  lemma OutwardExact(c: CursorState, dx: I32, dy: I32)
    ensures var sx, sy := Turn(c) * SideX(c.direction), Turn(c) * SideY(c.direction);
            var outward := c.OutwardBy(dx, dy);
            && (outward.Some? <==> OutOn(sx, c.x, c.Size().width, dx) && OutOn(sy, c.y, c.Size().height, dy))
            && (outward.Some? ==>
                  outward.value == if sy == 0 then Pixels(dx) else if sx == 0 then Pixels(dy)
                                   else Min(Pixels(dx), Pixels(dy)))
  {
  }

  function Centered(local: ScreenSize, remote: ScreenSize, direction: ScreenDirection): CursorState {
    CursorState(local, remote, direction, LocalScreen, local.width / 2, local.height / 2, Idle())
  }

  // ---------- The router as an object ----------

  class CursorRouter {
    var local: ScreenSize
    var remote: ScreenSize
    var direction: ScreenDirection
    var active: ActiveScreen
    var x: I32
    var y: I32
    const barrier: EdgeBarrier<ScreenDirection>

    function State(): CursorState
      reads this, barrier
    {
      CursorState(local, remote, direction, active, x, y, barrier.State())
    }

    constructor (local: ScreenSize, remote: ScreenSize, direction: ScreenDirection)
      ensures fresh(barrier)
      ensures State() == Centered(local, remote, direction)
    {
      this.local, this.remote, this.direction := local, remote, direction;
      active := LocalScreen;
      x, y := local.width / 2, local.height / 2;
      barrier := new EdgeBarrier<ScreenDirection>();
    }

    method SetLocalPosition(px: I32, py: I32)
      modifies this, barrier
      ensures State() == old(State()).Positioned(px, py)
    {
      active := LocalScreen;
      x, y := ClampX(px, local), ClampY(py, local);
      barrier.Reset();
    }

    method RouteMotion(dx: I32, dy: I32) returns (route: CursorRoute)
      modifies this, barrier
      ensures (route, State()) == old(State()).Route(dx, dy)
    {
      if active.LocalScreen? {
        route := RouteLocal(dx, dy);
      } else {
        route := RouteRemote(dx, dy);
      }
    }

    // Whether the barrier lets this motion through; a motion that is not outward resets it.
    method PushOutward(dx: I32, dy: I32) returns (canCross: bool)
      modifies barrier
      ensures var outward := old(State()).OutwardBy(dx, dy);
              (canCross, barrier.State()) == if outward.Some? then old(barrier.State()).Push(direction, outward.value)
                                             else (false, Idle())
    {
      var outward := State().OutwardBy(dx, dy);
      if outward.Some? {
        canCross := barrier.Push(direction, outward.value);
      } else {
        barrier.Reset();
        canCross := false;
      }
    }

    method RouteLocal(dx: I32, dy: I32) returns (route: CursorRoute)
      requires active.LocalScreen?
      modifies this, barrier
      ensures (route, State()) == old(State()).Route(dx, dy)
    {
      var nextX, nextY := SatAdd(x, dx), SatAdd(y, dy);
      var canCross := PushOutward(dx, dy);
      if !canCross {
        x, y := ClampX(nextX, local), ClampY(nextY, local);
        return LocalMotion(dx, dy);
      }
      active := RemoteScreen;
      var alongX := ScaleAxis(ClampX(nextX, local), local.width, remote.width);
      var alongY := ScaleAxis(ClampY(nextY, local), local.height, remote.height);
      match direction {
        case Right => x, y := Min(1, remote.width - 1), alongY;
        case Left => x, y := SatSub(remote.width, 2), alongY;
        case Top => x, y := alongX, SatSub(remote.height, 2);
        case TopRight => x, y := Min(1, remote.width - 1), SatSub(remote.height, 2);
        case Bottom => x, y := alongX, Min(1, remote.height - 1);
        case BottomRight => x, y := Min(1, remote.width - 1), Min(1, remote.height - 1);
        case BottomLeft => x, y := SatSub(remote.width, 2), Min(1, remote.height - 1);
        case TopLeft => x, y := SatSub(remote.width, 2), SatSub(remote.height, 2);
      }
      return EnterRemote(x, y);
    }

    method RouteRemote(dx: I32, dy: I32) returns (route: CursorRoute)
      requires active.RemoteScreen?
      modifies this, barrier
      ensures (route, State()) == old(State()).Route(dx, dy)
    {
      var nextX, nextY := SatAdd(x, dx), SatAdd(y, dy);
      var canCross := PushOutward(dx, dy);
      if !canCross {
        x, y := ClampX(nextX, remote), ClampY(nextY, remote);
        return RemoteMotion(dx, dy);
      }
      active := LocalScreen;
      var alongX := ScaleAxis(ClampX(nextX, remote), remote.width, local.width);
      var alongY := ScaleAxis(ClampY(nextY, remote), remote.height, local.height);
      match direction {
        case Right => x, y := SatSub(local.width, 2), alongY;
        case Left => x, y := Min(1, local.width - 1), alongY;
        case Top => x, y := alongX, Min(1, local.height - 1);
        case TopRight => x, y := SatSub(local.width, 2), Min(1, local.height - 1);
        case Bottom => x, y := alongX, SatSub(local.height, 2);
        case BottomRight => x, y := SatSub(local.width, 2), SatSub(local.height, 2);
        case BottomLeft => x, y := Min(1, local.width - 1), SatSub(local.height, 2);
        case TopLeft => x, y := Min(1, local.width - 1), Min(1, local.height - 1);
      }
      return EnterLocal(x, y);
    }
  }
}
