/** The sliding-window limit on pairing attempts, overall and per source address. */
module PairingLimiter {
  import opened MachineInts

  type Address = string

  // Times are nanoseconds of a monotonic clock.
  datatype Attempt = Attempt(time: nat, source: Address)

  const WINDOW: nat := 60_000_000_000
  const MAX_ATTEMPTS: nat := 20
  const MAX_PER_SOURCE: nat := 5

  // The time since an earlier instant, zero if it is not earlier.
  function Since(now: nat, earlier: nat): nat {
    if now < earlier then 0 else now - earlier
  }

  predicate Expired(a: Attempt, now: nat) {
    Since(now, a.time) >= WINDOW
  }

  function CountFrom(attempts: seq<Attempt>, source: Address): nat {
    if attempts == [] then 0
    else CountFrom(attempts[1..], source) + if attempts[0].source == source then 1 else 0
  }

  // ---------- The queue the program keeps ----------

  function DropExpired(attempts: seq<Attempt>, now: nat): seq<Attempt> {
    if attempts != [] && Expired(attempts[0], now) then DropExpired(attempts[1..], now) else attempts
  }

  function Allowed(attempts: seq<Attempt>, source: Address, now: nat): (bool, seq<Attempt>) {
    var recent := DropExpired(attempts, now);
    if |recent| >= MAX_ATTEMPTS || CountFrom(recent, source) >= MAX_PER_SOURCE then (false, recent)
    else (true, recent + [Attempt(now, source)])
  }

  class PairingRateLimiter {
    var attempts: seq<Attempt>

    constructor ()
      ensures attempts == []
    {
      attempts := [];
    }

    method Allow(source: Address, now: nat) returns (ok: bool)
      modifies this
      ensures (ok, attempts) == Allowed(old(attempts), source, now)
    {
      while attempts != [] && Expired(attempts[0], now)
        invariant DropExpired(attempts, now) == DropExpired(old(attempts), now)
        decreases |attempts|
      {
        attempts := attempts[1..];
      }
      var sourceAttempts := 0;
      for i := 0 to |attempts|
        invariant sourceAttempts + CountFrom(attempts[i..], source) == CountFrom(attempts, source)
        invariant attempts == DropExpired(old(attempts), now)
      {
        if attempts[i].source == source {
          sourceAttempts := sourceAttempts + 1;
        }
      }
      if |attempts| >= MAX_ATTEMPTS || sourceAttempts >= MAX_PER_SOURCE {
        return false;
      }
      attempts := attempts + [Attempt(now, source)];
      return true;
    }
  }

  // ---------- The limit as it is meant: over everything accepted so far ----------

  // How many attempts of the log are recent, from `source` or from anywhere.
  function Recent(log: seq<Attempt>, now: nat, source: Address, anywhere: bool): nat {
    if log == [] then 0
    else
      var last := log[|log| - 1];
      Recent(log[..|log| - 1], now, source, anywhere)
      + if now - last.time < 60_000_000_000 && (anywhere || last.source == source) then 1 else 0
  }

  predicate Permitted(log: seq<Attempt>, source: Address, now: nat) {
    Recent(log, now, source, true) < 20 && Recent(log, now, source, false) < 5
  }

  // The queue and the log after the first `n` requests.
  function QueueAt(requests: seq<Attempt>, n: nat): seq<Attempt>
    requires n <= |requests|
  {
    if n == 0 then [] else Allowed(QueueAt(requests, n - 1), requests[n - 1].source, requests[n - 1].time).1
  }

  function LogAt(requests: seq<Attempt>, n: nat): seq<Attempt>
    requires n <= |requests|
  {
    if n == 0 then []
    else
      var log, r := LogAt(requests, n - 1), requests[n - 1];
      if Permitted(log, r.source, r.time) then log + [r] else log
  }

  predicate Nondecreasing(attempts: seq<Attempt>) {
    forall i, j | 0 <= i < j < |attempts| :: attempts[i].time <= attempts[j].time
  }

  // The queue is the end of the log, and what it no longer holds had expired by `now`.
  predicate Represents(queue: seq<Attempt>, log: seq<Attempt>, now: nat) {
    && Nondecreasing(log)
    && |queue| <= |log| && |queue| <= 20
    && queue == log[|log| - |queue|..]
    && (forall i | 0 <= i < |log| - |queue| :: Expired(log[i], now))
    && (forall i | 0 <= i < |log| :: log[i].time <= now)
  }

  // On a sorted queue dropping from the front removes exactly the expired attempts.
  lemma {:induction false} DropExpiredExact(queue: seq<Attempt>, now: nat)
    requires Nondecreasing(queue)
    ensures var kept := DropExpired(queue, now);
            && |kept| <= |queue| && kept == queue[|queue| - |kept|..]
            && (forall i | 0 <= i < |queue| - |kept| :: Expired(queue[i], now))
            && (forall i | |queue| - |kept| <= i < |queue| :: !Expired(queue[i], now))
  {
    if queue != [] && Expired(queue[0], now) {
      assert Nondecreasing(queue[1..]);
      DropExpiredExact(queue[1..], now);
      assert forall i | 1 <= i < |queue| :: queue[i] == queue[1..][i - 1];
    }
  }

  lemma {:induction false} CountFromAppend(a: seq<Attempt>, x: Attempt, source: Address)
    ensures CountFrom(a + [x], source) == CountFrom(a, source) + if x.source == source then 1 else 0
  {
    if a != [] {
      assert (a + [x])[1..] == a[1..] + [x];
      CountFromAppend(a[1..], x, source);
    } else {
      assert a + [x] == [x];
    }
  }

  // When exactly the attempts from `k` on are recent, counting the recent ones is counting those.
  lemma {:induction false} RecentIsSuffix(log: seq<Attempt>, k: nat, now: nat, source: Address)
    requires k <= |log|
    requires forall i | 0 <= i < |log| :: Expired(log[i], now) <==> i < k
    ensures Recent(log, now, source, true) == |log| - k
    ensures Recent(log, now, source, false) == CountFrom(log[k..], source)
  {
    if |log| > 0 {
      var shorter, last := log[..|log| - 1], log[|log| - 1];
      if k == |log| {
        RecentIsSuffix(shorter, k - 1, now, source);
        assert shorter[k - 1..] == [] && log[k..] == [];
      } else {
        RecentIsSuffix(shorter, k, now, source);
        assert log[k..] == shorter[k..] + [last];
        CountFromAppend(shorter[k..], last, source);
      }
    }
  }

  // Dropping from the queue leaves the end of the log that is recent now.
  lemma DropLeavesRecent(queue: seq<Attempt>, log: seq<Attempt>, earlier: nat, now: nat)
    requires Represents(queue, log, earlier) && earlier <= now
    ensures var kept := DropExpired(queue, now);
            && |kept| <= |queue| && kept == log[|log| - |kept|..]
            && forall i | 0 <= i < |log| :: Expired(log[i], now) <==> i < |log| - |kept|
  {
    var kept, start := DropExpired(queue, now), |log| - |queue|;
    assert forall i | 0 <= i < |queue| :: queue[i] == log[start + i];
    assert Nondecreasing(queue);
    assert forall i | 0 <= i < start :: Expired(log[i], now);
    hide Represents, Expired, Nondecreasing, DropExpired;
    DropExpiredExact(queue, now);
    forall i | 0 <= i < |log| ensures Expired(log[i], now) <==> i < |log| - |kept| {
      if i >= start { assert queue[i - start] == log[i]; }
    }
  }

  lemma StillRepresents(queue: seq<Attempt>, log: seq<Attempt>, now: nat, source: Address)
    requires Represents(queue, log, now) && |queue| < MAX_ATTEMPTS
    ensures Represents(queue + [Attempt(now, source)], log + [Attempt(now, source)], now)
  {
  }

  lemma AllowRefines(queue: seq<Attempt>, log: seq<Attempt>, earlier: nat, source: Address, now: nat)
    requires Represents(queue, log, earlier) && earlier <= now
    ensures var (ok, queue') := Allowed(queue, source, now);
            && ok == Permitted(log, source, now)
            && Represents(queue', if ok then log + [Attempt(now, source)] else log, now)
  {
    var kept := DropExpired(queue, now);
    DropLeavesRecent(queue, log, earlier, now);
    RecentIsSuffix(log, |log| - |kept|, now, source);
    hide Expired, DropExpired, CountFrom, Recent;
    KeptRepresents(queue, kept, log, earlier, now);
    hide Represents;
    if |kept| < MAX_ATTEMPTS {
      StillRepresents(kept, log, now, source);
    }
  }

  lemma KeptRepresents(queue: seq<Attempt>, kept: seq<Attempt>, log: seq<Attempt>, earlier: nat, now: nat)
    requires Represents(queue, log, earlier) && earlier <= now
    requires |kept| <= |queue| && kept == log[|log| - |kept|..]
    requires forall i | 0 <= i < |log| :: Expired(log[i], now) <==> i < |log| - |kept|
    ensures Represents(kept, log, now)
  {
  }

  /** With nondecreasing times the short queue answers every request as if it counted all attempts ever
      accepted that are less than a minute old, and it stays sorted and at most 20 long. */
  lemma {:induction false} LimiterRefinesLog(requests: seq<Attempt>, n: nat)
    requires Nondecreasing(requests) && n <= |requests|
    ensures Represents(QueueAt(requests, n), LogAt(requests, n), if n == 0 then 0 else requests[n - 1].time)
    ensures n < |requests| ==> var r := requests[n];
              Allowed(QueueAt(requests, n), r.source, r.time).0 == Permitted(LogAt(requests, n), r.source, r.time)
  {
    hide Allowed, Permitted, Represents;
    if n == 0 {
      EmptyRepresents();
    } else {
      LimiterRefinesLog(requests, n - 1);
      var earlier := if n == 1 then 0 else requests[n - 2].time;
      AllowRefines(QueueAt(requests, n - 1), LogAt(requests, n - 1), earlier, requests[n - 1].source,
          requests[n - 1].time);
    }
    if n < |requests| {
      AllowRefines(QueueAt(requests, n), LogAt(requests, n), if n == 0 then 0
          else requests[n - 1].time, requests[n].source, requests[n].time);
    }
  }

  lemma EmptyRepresents()
    ensures Represents([], [], 0)
  {
  }

  // ---------- The bound on every window ----------

  // Accepted attempts with times in the minute that starts at `from`.
  function InWindow(log: seq<Attempt>, from: nat, source: Address, anywhere: bool): nat {
    if log == [] then 0
    else
      var last := log[|log| - 1];
      InWindow(log[..|log| - 1], from, source, anywhere)
      + if from <= last.time < from + 60_000_000_000 && (anywhere || last.source == source) then 1 else 0
  }

  lemma {:induction false} WindowIsRecent(log: seq<Attempt>, from: nat, now: nat, source: Address, anywhere: bool)
    requires from <= now < from + 60_000_000_000
    ensures InWindow(log, from, source, anywhere) <= Recent(log, now, source, anywhere)
  {
    if log != [] {
      WindowIsRecent(log[..|log| - 1], from, now, source, anywhere);
    }
  }

  /** Any half-open minute holds at most 20 accepted attempts, and at most 5 from one source. */
  lemma {:induction false} WindowBound(requests: seq<Attempt>, n: nat, from: nat, source: Address)
    requires n <= |requests|
    ensures InWindow(LogAt(requests, n), from, source, true) <= 20
    ensures InWindow(LogAt(requests, n), from, source, false) <= 5
  {
    if n > 0 {
      WindowBound(requests, n - 1, from, source);
      var log, r := LogAt(requests, n - 1), requests[n - 1];
      if Permitted(log, r.source, r.time) {
        assert (log + [r])[..|log|] == log;
        if from <= r.time < from + 60_000_000_000 {
          WindowIsRecent(log, from, r.time, r.source, true);
          WindowIsRecent(log, from, r.time, r.source, false);
          AnywhereIgnoresSource(log, from, source, r.source);
        }
      }
    }
  }

  lemma {:induction false} AnywhereIgnoresSource(log: seq<Attempt>, from: nat, a: Address, b: Address)
    ensures InWindow(log, from, a, true) == InWindow(log, from, b, true)
  {
    if log != [] {
      AnywhereIgnoresSource(log[..|log| - 1], from, a, b);
    }
  }
}
