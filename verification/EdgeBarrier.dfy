/** The resistance a screen edge offers before the cursor may cross it. */
module EdgeBarriers {
  import opened MachineInts
  import opened Wrappers

  const BARRIER_DISTANCE: I32 := 8
  const SWITCH_DELAY_MICROS: U64 := 250_000

  // The value of a barrier: the edge being pushed, the distance pushed and the start of the wait.
  datatype Barrier<K(==)> = Barrier(edge: Option<K>, distance: I32, since: Option<U64>)
  {
    function Toward(k: K): Barrier<K> {
      if edge == Some(k) then this else Barrier(Some(k), 0, since)
    }

    // Distance accumulates while the same edge is pushed; reaching the limit opens the barrier.
    function Push(k: K, step: I32): (bool, Barrier<K>) {
      var total := SatAdd(Toward(k).distance, if step > 0 then step else 0);
      if total >= BARRIER_DISTANCE then (true, Idle()) else (false, Toward(k).(distance := total))
    }

    // The first motion into an edge starts the wait; a later one crosses once the delay has passed.
    function WaitElapsed(k: K, now: U64): (bool, Barrier<K>) {
      if edge != Some(k) then (false, Barrier(Some(k), 0, Some(now)))
      else
        var start := if since.Some? then since.value else now;
        if SatSubU64(now, start) >= SWITCH_DELAY_MICROS then (true, Idle())
        else (false, this.(since := Some(start)))
    }

    function StartWait(k: K, now: U64): Barrier<K> {
      if edge != Some(k) || since.None? then Barrier(Some(k), 0, Some(now)) else this
    }
  }

  function Idle<K>(): Barrier<K> {
    Barrier(None, 0, None)
  }

  class EdgeBarrier<K(==)> {
    var edge: Option<K>
    var distance: I32
    var since: Option<U64>

    function State(): Barrier<K>
      reads this
    {
      Barrier(edge, distance, since)
    }

    constructor ()
      ensures State() == Idle()
    {
      edge, distance, since := None, 0, None;
    }

    method Push(k: K, step: I32) returns (open: bool)
      modifies this
      ensures (open, State()) == old(State()).Push(k, step)
    {
      if edge != Some(k) {
        edge := Some(k);
        distance := 0;
      }
      distance := SatAdd(distance, if step > 0 then step else 0);
      if distance >= BARRIER_DISTANCE {
        Reset();
        return true;
      }
      return false;
    }

    method WaitElapsed(k: K, now: U64) returns (open: bool)
      modifies this
      ensures (open, State()) == old(State()).WaitElapsed(k, now)
    {
      if edge != Some(k) {
        edge := Some(k);
        distance := 0;
        since := Some(now);
        return false;
      }
      if since.None? {
        since := Some(now);
      }
      if SatSubU64(now, since.value) >= SWITCH_DELAY_MICROS {
        Reset();
        return true;
      }
      return false;
    }

    method StartWait(k: K, now: U64)
      modifies this
      ensures State() == old(State()).StartWait(k, now)
    {
      if edge != Some(k) || since.None? {
        edge := Some(k);
        distance := 0;
        since := Some(now);
      }
    }

    method Reset()
      modifies this
      ensures State() == Idle()
    {
      edge, distance, since := None, 0, None;
    }
  }
}
