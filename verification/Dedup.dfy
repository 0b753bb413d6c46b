// Folding repeated sightings into windows, one window per key. Times are microseconds.
module Dedup {
  import opened Clock
  import opened Options

  datatype Entry = Entry(firstSeen: int, lastSeen: int, count: nat)

  datatype Decision = Decision(isDuplicate: bool, occurrence: nat, windowStartedAt: int, totalInWindow: nat)

  type Entries = map<string, Entry>

  function Lookup(entries: Entries, key: string): Option<Entry> {
    if key in entries then Some(entries[key]) else None
  }

  predicate Opens(window: int, e: Option<Entry>, at: int) { e.None? || at - e.value.firstSeen >= window }

  function Touched(window: int, e: Option<Entry>, at: int): (t: Entry)
    ensures Opens(window, e, at) ==> t.firstSeen == t.lastSeen == at
    ensures !Opens(window, e, at) ==>
              && t.firstSeen == e.value.firstSeen
              && t.lastSeen >= at && t.lastSeen >= e.value.lastSeen && t.lastSeen in {at, e.value.lastSeen}
  {
    if Opens(window, e, at) then Entry(at, at, 1)
    else Entry(e.value.firstSeen, if at > e.value.lastSeen then at else e.value.lastSeen, e.value.count + 1)
  }

  // The verdict in terms of the entry the check leaves behind.
  function Verdict(window: int, e: Option<Entry>, at: int): Decision {
    var t := Touched(window, e, at);
    Decision(!Opens(window, e, at), t.count, t.firstSeen, t.count)
  }

  function Purged(entries: Entries, before: int): Entries {
    map k | k in entries && entries[k].firstSeen >= before :: entries[k]
  }

  class DedupWindow {
    const windowSeconds: int
    var entries: Entries

    constructor (windowSeconds: int)
      ensures this.windowSeconds == windowSeconds && entries == map[]
    {
      this.windowSeconds, entries := windowSeconds, map[];
    }

    // A zero override falls back to the configured window, as a missing one does.
    function Window(override: Option<int>): int {
      (if override.None? || override.value == 0 then windowSeconds else override.value) * SECOND
    }

    method Check(key: string, at: int, override: Option<int>) returns (d: Decision)
      modifies this`entries
      ensures d == Verdict(Window(override), old(Lookup(entries, key)), at)
      ensures var seconds := if override.None? || override.value == 0 then windowSeconds else override.value;
              d.isDuplicate <==> key in old(entries) && at - old(entries)[key].firstSeen < seconds * 1_000_000
      ensures entries == old(entries)[key := Touched(Window(override), old(Lookup(entries, key)), at)]
    {
      var window := Window(override);
      if key !in entries || at - entries[key].firstSeen >= window {
        entries := entries[key := Entry(at, at, 1)];
        return Decision(false, 1, at, 1);
      }
      var e := entries[key];
      e := e.(count := e.count + 1);
      e := e.(lastSeen := if at > e.lastSeen then at else e.lastSeen);
      entries := entries[key := e];
      d := Decision(true, e.count, e.firstSeen, e.count);
    }

    method Purge(before: int) returns (removed: nat)
      modifies this`entries
      ensures entries == Purged(old(entries), before)
      ensures removed == |old(entries)| - |entries|
    {
      hide Purged;
      var stale := set k | k in entries && entries[k].firstSeen < before;
      removed := |stale|;
      var left := stale;
      ghost var was := entries;
      assert was - (stale - left) == was;
      while left != {}
        invariant left <= stale && entries == was - (stale - left)
        decreases |left|
      {
        var key :| key in left;
        DropOne(was, stale, left, key);
        entries := entries - {key};
        left := left - {key};
      }
      assert stale - left == stale;
      DroppedIsPurged(was, stale, before);
    }
  }

  lemma DropOne(was: Entries, stale: set<string>, left: set<string>, key: string)
    requires key in left && left <= stale
    ensures was - (stale - left) - {key} == was - (stale - (left - {key}))
  {
    assert (stale - left) + {key} == stale - (left - {key});
  }

  lemma DroppedIsPurged(was: Entries, stale: set<string>, before: int)
    requires stale == set k | k in was && was[k].firstSeen < before
    ensures was - stale == Purged(was, before) && |stale| == |was| - |was - stale|
  {
    assert (was - stale).Keys == was.Keys - stale;
    assert |was.Keys - stale| == |was.Keys| - |stale|;
  }

  // ---- Runs with a fixed window -----------------------------------------------------------------------

  datatype Op = Check(key: string, at: int) | Purge(before: int)

  function After(window: int, entries: Entries, op: Op): Entries {
    match op
    case Check(key, at) => entries[key := Touched(window, Lookup(entries, key), at)]
    case Purge(before) => Purged(entries, before)
  }

  function Run(window: int, entries: Entries, ops: seq<Op>): Entries
    decreases |ops|
  {
    if ops == [] then entries else Run(window, After(window, entries, ops[0]), ops[1..])
  }

  function Verdicts(window: int, entries: Entries, ops: seq<Op>): seq<Decision>
    decreases |ops|
  {
    if ops == [] then []
    else
      (if ops[0].Check? then [Verdict(window, Lookup(entries, ops[0].key), ops[0].at)] else [])
      + Verdicts(window, After(window, entries, ops[0]), ops[1..])
  }

  function ChecksOnly(ops: seq<Op>): seq<Op>
    decreases |ops|
  {
    if ops == [] then [] else (if ops[0].Check? then [ops[0]] else []) + ChecksOnly(ops[1..])
  }

  // The times at which the checks open an alarm for the key.
  function Alarms(window: int, entries: Entries, ops: seq<Op>, key: string): seq<int>
    decreases |ops|
  {
    if ops == [] then []
    else
      (if OpensFor(window, entries, ops[0], key) then [ops[0].at] else [])
      + Alarms(window, After(window, entries, ops[0]), ops[1..], key)
  }

  predicate OpensFor(window: int, entries: Entries, op: Op, key: string) {
    op.Check? && op.key == key && Opens(window, Lookup(entries, key), op.at)
  }

  predicate NoPurge(ops: seq<Op>) { forall i :: 0 <= i < |ops| ==> ops[i].Check? }

  predicate Apart(window: int, times: seq<int>) {
    forall i :: 0 <= i < |times| - 1 ==> times[i + 1] - times[i] >= window
  }

  // ALARMS ARE A WINDOW APART, whatever order the timestamps arrive in.
  lemma {:induction false} AlarmsAreApart(window: int, entries: Entries, ops: seq<Op>, key: string)
    requires NoPurge(ops)
    ensures var times := Alarms(window, entries, ops, key);
            Apart(window, times) && (key in entries && times != [] ==> times[0] - entries[key].firstSeen >= window)
    decreases |ops|
  {
    if ops != [] {
      var next := After(window, entries, ops[0]);
      AlarmsAreApart(window, next, ops[1..], key);
      if OpensFor(window, entries, ops[0], key) {
        var rest := Alarms(window, next, ops[1..], key);
        assert next[key].firstSeen == ops[0].at;
        ApartCons(window, ops[0].at, rest);
      }
    }
  }

  lemma ApartCons(window: int, first: int, rest: seq<int>)
    requires Apart(window, rest) && (rest != [] ==> rest[0] - first >= window)
    ensures Apart(window, [first] + rest)
  {
    forall i | 0 <= i < |rest|
      ensures ([first] + rest)[i + 1] - ([first] + rest)[i] >= window
    {
      if i > 0 { assert rest[i - 1 + 1] - rest[i - 1] >= window; }
    }
  }

  // ---- Nothing is lost ----------------------------------------------------------------------------------

  // The sightings held by the windows of the key that the checks closed.
  function Closed(window: int, entries: Entries, ops: seq<Op>, key: string): nat
    decreases |ops|
  {
    if ops == [] then 0
    else
      (if OpensFor(window, entries, ops[0], key) && key in entries then entries[key].count else 0)
      + Closed(window, After(window, entries, ops[0]), ops[1..], key)
  }

  function OpenCount(entries: Entries, key: string): nat { if key in entries then entries[key].count else 0 }

  function ChecksOf(ops: seq<Op>, key: string): nat
    decreases |ops|
  {
    if ops == [] then 0 else (if ops[0].Check? && ops[0].key == key then 1 else 0) + ChecksOf(ops[1..], key)
  }

  // EVERY SIGHTING IS COUNTED ONCE, in a closed window or in the open one.
  lemma {:induction false} SightingsAreConserved(window: int, entries: Entries, ops: seq<Op>, key: string)
    requires NoPurge(ops)
    ensures Closed(window, entries, ops, key) + OpenCount(Run(window, entries, ops), key)
         == OpenCount(entries, key) + ChecksOf(ops, key)
    decreases |ops|
  {
    if ops != [] { SightingsAreConserved(window, After(window, entries, ops[0]), ops[1..], key); }
  }

  // ---- Purging ------------------------------------------------------------------------------------------

  // A purge is visible to a check exactly when it dropped a window the check falls into.
  lemma PurgeIsVisible(window: int, entries: Entries, before: int, key: string, at: int)
    ensures Verdict(window, Lookup(Purged(entries, before), key), at) != Verdict(window, Lookup(entries, key), at)
        <==> key in entries && entries[key].firstSeen < before && at - entries[key].firstSeen < window
  {
  }

  // Every check after a purge comes at least a window after what it purged.
  ghost predicate PurgesLate(window: int, ops: seq<Op>) {
    forall i, j :: 0 <= i < j < |ops| && ops[i].Purge? && ops[j].Check? ==> ops[j].at >= ops[i].before + window
  }

  // The purged table y may lack only windows that no coming check falls into.
  ghost predicate Indistinct(window: int, x: Entries, y: Entries, ops: seq<Op>) {
    forall k :: Lookup(x, k) == Lookup(y, k) || (k in x && k !in y && OutOfReach(window, x[k], ops))
  }

  ghost predicate OutOfReach(window: int, e: Entry, ops: seq<Op>) {
    forall j :: 0 <= j < |ops| && ops[j].Check? ==> ops[j].at - e.firstSeen >= window
  }

  // PURGING LATE IS INVISIBLE: every verdict is the one of the run that never purges.
  lemma {:induction false} PurgesAreInvisible(window: int, x: Entries, y: Entries, ops: seq<Op>)
    requires PurgesLate(window, ops) && Indistinct(window, x, y, ops)
    ensures Verdicts(window, y, ops) == Verdicts(window, x, ChecksOnly(ops))
    decreases |ops|
  {
    hide Touched, Verdict;
    if ops != [] {
      var op := ops[0];
      IndistinctStep(window, x, y, ops);
      assert PurgesLate(window, ops[1..]);
      if op.Check? {
        assert ChecksOnly(ops)[1..] == ChecksOnly(ops[1..]);
        SameVerdict(window, x, y, ops);
        PurgesAreInvisible(window, After(window, x, op), After(window, y, op), ops[1..]);
      } else {
        assert ChecksOnly(ops) == ChecksOnly(ops[1..]);
        assert Verdicts(window, y, ops) == Verdicts(window, After(window, y, op), ops[1..]);
        PurgesAreInvisible(window, x, After(window, y, op), ops[1..]);
      }
    }
  }

  lemma SameVerdict(window: int, x: Entries, y: Entries, ops: seq<Op>)
    requires ops != [] && ops[0].Check? && Indistinct(window, x, y, ops)
    ensures Touched(window, Lookup(x, ops[0].key), ops[0].at) == Touched(window, Lookup(y, ops[0].key), ops[0].at)
    ensures Verdict(window, Lookup(x, ops[0].key), ops[0].at) == Verdict(window, Lookup(y, ops[0].key), ops[0].at)
  {
  }

  lemma IndistinctStep(window: int, x: Entries, y: Entries, ops: seq<Op>)
    requires ops != [] && PurgesLate(window, ops) && Indistinct(window, x, y, ops)
    ensures ops[0].Check? ==> Indistinct(window, After(window, x, ops[0]), After(window, y, ops[0]), ops[1..])
    ensures ops[0].Purge? ==> Indistinct(window, x, After(window, y, ops[0]), ops[1..])
  {
    hide Touched, Verdict;
    if ops[0].Check? { SameVerdict(window, x, y, ops); }
    forall k | k in x && OutOfReach(window, x[k], ops)
      ensures OutOfReach(window, x[k], ops[1..])
    {
    }
    if ops[0].Purge? {
      forall k | k in x && x[k].firstSeen < ops[0].before
        ensures OutOfReach(window, x[k], ops[1..])
      {
      }
    }
  }
}
