// The per-device limit on accepted mail: a fixed window per key. Times are microseconds.
module RateLimiting {
  import opened Clock
  import opened Options

  // The open window of a key: when it began and how many messages it has seen, refused ones included.
  datatype Window = Window(start: int, count: int)

  type Windows = map<string, Window>

  function Lookup(windows: Windows, key: string): Option<Window> {
    if key in windows then Some(windows[key]) else None
  }

  predicate Admits(limit: int, w: Option<Window>, now: int) {
    match w
    case None => limit > 0
    case Some(Window(start, count)) => now - start >= MINUTE || count < limit
  }

  function Seen(w: Option<Window>, now: int): Window {
    match w
    case None => Window(now, 1)
    case Some(Window(start, count)) => if now - start >= MINUTE then Window(now, 1) else Window(start, count + 1)
  }

  class RateLimiter {
    const limitPerMinute: int
    var windows: Windows

    constructor (limitPerMinute: int)
      ensures this.limitPerMinute == limitPerMinute && windows == map[]
    {
      this.limitPerMinute, windows := limitPerMinute, map[];
    }

    method Allow(key: string, now: int) returns (ok: bool)
      modifies this`windows
      ensures ok == Admits(limitPerMinute, old(Lookup(windows, key)), now)
      ensures windows == old(windows)[key := Seen(old(Lookup(windows, key)), now)]
    {
      var start, count := now, 0;
      if key in windows {
        start, count := windows[key].start, windows[key].count;
      }
      if now - start >= MINUTE {
        windows := windows[key := Window(now, 1)];
        return true;
      }
      if count >= limitPerMinute {
        windows := windows[key := Window(start, count + 1)];
        return false;
      }
      windows := windows[key := Window(start, count + 1)];
      ok := true;
    }
  }

  // ---- Whole runs -------------------------------------------------------------------------------------

  datatype Call = Call(key: string, now: int)

  function After(windows: Windows, c: Call): Windows { windows[c.key := Seen(Lookup(windows, c.key), c.now)] }

  predicate Counts(limit: int, windows: Windows, c: Call, key: string, t: int) {
    c.key == key && t <= c.now < t + MINUTE && Admits(limit, Lookup(windows, key), c.now)
  }

  // How many calls of the key are admitted in the half-open minute from t.
  function Admitted(limit: int, windows: Windows, calls: seq<Call>, key: string, t: int): nat
    decreases |calls|
  {
    if calls == [] then 0
    else
      (if Counts(limit, windows, calls[0], key, t) then 1 else 0)
      + Admitted(limit, After(windows, calls[0]), calls[1..], key, t)
  }

  predicate Monotone(clock: int, calls: seq<Call>)
    decreases |calls|
  {
    calls == [] || (clock <= calls[0].now && Monotone(calls[0].now, calls[1..]))
  }

  function Max(a: int, b: int): int { if a > b then a else b }

  // What may still be admitted in the minute from t, for a key whose window is w at the time clock.
  function Budget(limit: int, w: Option<Window>, clock: int, t: int): int {
    var most := Max(limit, 1);
    if clock >= t + MINUTE then 0
    else if clock < t then 2 * most - 1
    else match w
      case None => most
      case Some(Window(start, count)) => Max(most - count, 0) + if start < t then most else 0
  }

  predicate Sane(w: Option<Window>, clock: int) { w.Some? ==> w.value.count >= 1 && w.value.start <= clock }

  lemma BudgetPays(limit: int, w: Option<Window>, clock: int, now: int, t: int)
    requires Sane(w, clock) && clock <= now
    ensures Sane(Some(Seen(w, now)), now)
    ensures (if t <= now < t + MINUTE && Admits(limit, w, now) then 1 else 0) + Budget(limit, Some(Seen(w, now)), now, t)
         <= Budget(limit, w, clock, t)
  {
  }

  lemma BudgetShrinks(limit: int, w: Option<Window>, clock: int, now: int, t: int)
    requires Sane(w, clock) && clock <= now
    ensures Budget(limit, w, now, t) <= Budget(limit, w, clock, t)
  {
  }

  lemma {:induction false} WithinBudget(limit: int, windows: Windows, calls: seq<Call>, clock: int, key: string, t: int)
    requires Monotone(clock, calls) && Sane(Lookup(windows, key), clock)
    ensures Admitted(limit, windows, calls, key, t) <= Budget(limit, Lookup(windows, key), clock, t)
    decreases |calls|
  {
    hide Budget, Admits, Seen;
    if calls == [] {
      BudgetIsNonNegative(limit, Lookup(windows, key), clock, t);
    } else {
      var c := calls[0];
      if c.key == key {
        BudgetPays(limit, Lookup(windows, key), clock, c.now, t);
      } else {
        BudgetShrinks(limit, Lookup(windows, key), clock, c.now, t);
      }
      WithinBudget(limit, After(windows, c), calls[1..], c.now, key, t);
    }
  }

  lemma BudgetIsNonNegative(limit: int, w: Option<Window>, clock: int, t: int)
    ensures Budget(limit, w, clock, t) >= 0
  {
  }

  // THE SLIDING BOUND. No minute, wherever it starts, admits more than 2 * limit - 1 messages of one
  // device, and more than one under a limit below one.
  lemma SlidingBound(limit: int, calls: seq<Call>, clock: int, key: string, t: int)
    requires Monotone(clock, calls)
    ensures limit >= 1 ==> Admitted(limit, map[], calls, key, t) <= 2 * limit - 1
    ensures limit < 1 ==> Admitted(limit, map[], calls, key, t) <= 1
  {
    WithinBudget(limit, map[], calls, clock, key, t);
  }

  // ---- The bound is reached -----------------------------------------------------------------------------

  function Burst(key: string, now: int, n: nat): seq<Call> { seq(n, i => Call(key, now)) }

  lemma {:induction false} BurstAdmits(limit: int, windows: Windows, key: string, now: int, n: nat, rest: seq<Call>, t: int)
    requires key in windows && windows[key].count + n <= limit && now - windows[key].start < MINUTE
    requires t <= now < t + MINUTE
    ensures Admitted(limit, windows, Burst(key, now, n) + rest, key, t)
         == n + Admitted(limit, windows[key := Window(windows[key].start, windows[key].count + n)], rest, key, t)
  {
    var calls, w := Burst(key, now, n) + rest, windows[key];
    if n == 0 {
      assert calls == rest && windows[key := Window(w.start, w.count + n)] == windows;
    } else {
      assert calls[1..] == Burst(key, now, n - 1) + rest;
      var next := After(windows, calls[0]);
      BurstAdmits(limit, next, key, now, n - 1, rest, t);
      assert next[key := Window(w.start, w.count + n)] == windows[key := Window(w.start, w.count + n)];
    }
  }

  // A window opened a minute earlier and filled at its end, then the next one filled at once.
  function Worst(key: string, limit: nat): seq<Call>
    requires limit >= 1
  {
    [Call(key, 0)] + (Burst(key, MINUTE - 1, limit - 1) + ([Call(key, MINUTE)] + Burst(key, MINUTE, limit - 1)))
  }

  lemma BoundIsReached(key: string, limit: nat)
    requires limit >= 1
    ensures Admitted(limit, map[], Worst(key, limit), key, MINUTE - 1) == 2 * limit - 1
  {
    var t := MINUTE - 1;
    var second := [Call(key, MINUTE)] + Burst(key, MINUTE, limit - 1);
    var first := Burst(key, MINUTE - 1, limit - 1) + second;
    assert Worst(key, limit)[1..] == first;
    var begun := After(map[], Call(key, 0));
    assert Admitted(limit, map[], Worst(key, limit), key, t) == Admitted(limit, begun, first, key, t);
    BurstAdmits(limit, begun, key, MINUTE - 1, limit - 1, second, t);
    var full := begun[key := Window(0, limit)];
    assert second[1..] == Burst(key, MINUTE, limit - 1) + [];
    BurstAdmits(limit, After(full, Call(key, MINUTE)), key, MINUTE, limit - 1, [], t);
  }

  // ---- Devices do not affect each other -------------------------------------------------------------------

  function Verdicts(limit: int, windows: Windows, calls: seq<Call>, key: string): seq<bool>
    decreases |calls|
  {
    if calls == [] then []
    else
      (if calls[0].key == key then [Admits(limit, Lookup(windows, key), calls[0].now)] else [])
      + Verdicts(limit, After(windows, calls[0]), calls[1..], key)
  }

  function Only(calls: seq<Call>, key: string): seq<Call> {
    if calls == [] then []
    else (if calls[0].key == key then [calls[0]] else []) + Only(calls[1..], key)
  }

  lemma {:induction false} DevicesAreIndependent(limit: int, x: Windows, y: Windows, calls: seq<Call>, key: string)
    requires Lookup(x, key) == Lookup(y, key)
    ensures Verdicts(limit, x, calls, key) == Verdicts(limit, y, Only(calls, key), key)
    decreases |calls|
  {
    hide Admits, Seen;
    if calls != [] {
      var c := calls[0];
      if c.key == key {
        assert Only(calls, key)[1..] == Only(calls[1..], key);
        DevicesAreIndependent(limit, After(x, c), After(y, c), calls[1..], key);
      } else {
        assert Only(calls, key) == Only(calls[1..], key);
        DevicesAreIndependent(limit, After(x, c), y, calls[1..], key);
      }
    }
  }

  // ---- A limit below one ------------------------------------------------------------------------------------

  // Every call comes within a minute of the one that opened the window.
  predicate WithinMinute(start: int, calls: seq<Call>, key: string) {
    forall i :: 0 <= i < |calls| && calls[i].key == key ==> calls[i].now - start < MINUTE
  }

  lemma {:induction false} RefusedInWindow(limit: int, windows: Windows, calls: seq<Call>, key: string)
    requires limit < 1 && key in windows && windows[key].count >= 1
    ensures true !in Verdicts(limit, windows, calls, key) <==> WithinMinute(windows[key].start, calls, key)
    decreases |calls|
  {
    if calls != [] {
      var c, next := calls[0], After(windows, calls[0]);
      RefusedInWindow(limit, next, calls[1..], key);
      assert WithinMinute(windows[key].start, calls, key) <==>
               && (c.key == key ==> c.now - windows[key].start < MINUTE)
               && WithinMinute(windows[key].start, calls[1..], key) by {
        assert forall i :: 1 <= i < |calls| ==> calls[i] == calls[1..][i - 1];
      }
    }
  }

  // The limit does not close the door: with a limit below one, no message of a device is admitted exactly as
  // long as all of them come within a minute of the first.
  lemma RefusedExactly(limit: int, calls: seq<Call>, key: string)
    requires limit < 1
    ensures var mine := Only(calls, key);
            true !in Verdicts(limit, map[], calls, key) <==> mine == [] || WithinMinute(mine[0].now, mine, key)
  {
    hide WithinMinute;
    var mine := Only(calls, key);
    DevicesAreIndependent(limit, map[], map[], calls, key);
    OnlyItsKey(calls, key);
    if mine != [] {
      RefusedInWindow(limit, After(map[], mine[0]), mine[1..], key);
      FirstIsWithin(mine, key);
    }
  }

  lemma {:induction false} OnlyItsKey(calls: seq<Call>, key: string)
    ensures forall c :: c in Only(calls, key) ==> c.key == key
    decreases |calls|
  {
    if calls != [] { OnlyItsKey(calls[1..], key); }
  }

  lemma FirstIsWithin(mine: seq<Call>, key: string)
    requires mine != []
    ensures WithinMinute(mine[0].now, mine, key) <==> WithinMinute(mine[0].now, mine[1..], key)
  {
    assert forall i :: 1 <= i < |mine| ==> mine[i] == mine[1..][i - 1];
  }

  // The shortest such run: the second message, a minute after the first, gets in under a limit of zero.
  lemma ZeroLimitLetsOneIn(key: string)
    ensures Admitted(0, map[], [Call(key, 0), Call(key, MINUTE)], key, MINUTE) == 1
    ensures Verdicts(0, map[], [Call(key, 0), Call(key, MINUTE)], key) == [false, true]
  {
    var calls := [Call(key, 0), Call(key, MINUTE)];
    var after := After(map[], calls[0]);
    assert calls[1..] == [calls[1]] && calls[1..][1..] == [];
    assert Verdicts(0, After(after, calls[1]), [], key) == [];
    assert Verdicts(0, after, calls[1..], key) == [true];
    assert Admitted(0, After(after, calls[1]), [], key, MINUTE) == 0;
    assert Admitted(0, after, calls[1..], key, MINUTE) == 1;
  }
}
