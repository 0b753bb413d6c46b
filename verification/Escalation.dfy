// One alarm's climb through an escalation policy. Clocks are integer microseconds.
module Escalation {
  import opened Clock
  import opened Options

  datatype Step = Step(afterSeconds: nat, role: string, users: seq<nat>)

  datatype Policy = Policy(name: string, steps: seq<Step>)

  predicate Ordered(steps: seq<Step>) {
    forall i, j :: 0 <= i < j < |steps| ==> steps[i].afterSeconds <= steps[j].afterSeconds
  }

  // What the constructor accepts.
  predicate ValidPolicy(p: Policy) { p.steps != [] && Ordered(p.steps) }

  predicate StrictlyOrdered(steps: seq<Step>) {
    forall i, j :: 0 <= i < j < |steps| ==> steps[i].afterSeconds < steps[j].afterSeconds
  }

  const DEFAULT_POLICY: Policy := Policy("default",
    [Step(0, "GUARD", []), Step(60, "SITE_MANAGER", []), Step(180, "SECURITY_MANAGER", [])])

  const CRITICAL_POLICY: Policy := Policy("critical",
    [Step(0, "GUARD", []), Step(30, "SITE_MANAGER", []), Step(90, "SECURITY_MANAGER", []), Step(240, "OWNER", [])])

  function PolicyFor(critical: bool): (p: Policy)
    ensures ValidPolicy(p) && StrictlyOrdered(p.steps)
  {
    if critical then CRITICAL_POLICY else DEFAULT_POLICY
  }

  // The state of one climb.
  datatype Climb = Climb(
    openedAt: int, policy: Policy, acknowledgedAt: Option<int>, resolvedAt: Option<int>, delivered: set<nat>)

  predicate Stopped(c: Climb) { c.acknowledgedAt.Some? || c.resolvedAt.Some? }

  function DueTime(c: Climb, i: nat): int
    requires i < |c.policy.steps|
  {
    c.openedAt + c.policy.steps[i].afterSeconds * SECOND
  }

  predicate IsDue(c: Climb, i: nat, now: int) {
    !Stopped(c) && i < |c.policy.steps| && i !in c.delivered && now >= DueTime(c, i)
  }

  // The steps that are due, in policy order, among the first k.
  function DueAmong(c: Climb, now: int, k: nat): seq<Step>
    requires k <= |c.policy.steps|
  {
    if k == 0 then []
    else DueAmong(c, now, k - 1) + if IsDue(c, k - 1, now) then [c.policy.steps[k - 1]] else []
  }

  function DueSteps(c: Climb, now: int): seq<Step> {
    DueAmong(c, now, |c.policy.steps|)
  }

  // list.index: the first position holding the step.
  function IndexOf(steps: seq<Step>, step: Step): (i: nat)
    requires step in steps
    ensures i < |steps| && steps[i] == step && step !in steps[..i]
  {
    if steps[0] == step then 0 else 1 + IndexOf(steps[1..], step)
  }

  // The first undelivered step that lies ahead, from step i on.
  function NextFrom(c: Climb, now: int, i: nat): Option<int>
    requires i <= |c.policy.steps|
    decreases |c.policy.steps| - i
  {
    if i == |c.policy.steps| then None
    else if i !in c.delivered && DueTime(c, i) > now then Some(DueTime(c, i))
    else NextFrom(c, now, i + 1)
  }

  function NextDueAt(c: Climb, now: int): Option<int> {
    if Stopped(c) then None else NextFrom(c, now, 0)
  }

  // ---- The object -----------------------------------------------------------------------------------

  class EscalationState {
    const openedAt: int
    const policy: Policy
    var acknowledgedAt: Option<int>
    var resolvedAt: Option<int>
    var delivered: set<nat>

    constructor (openedAt: int, policy: Policy, acknowledgedAt: Option<int>, resolvedAt: Option<int>, delivered: set<nat>)
      ensures Abstract() == Climb(openedAt, policy, acknowledgedAt, resolvedAt, delivered)
    {
      this.openedAt, this.policy := openedAt, policy;
      this.acknowledgedAt, this.resolvedAt, this.delivered := acknowledgedAt, resolvedAt, delivered;
    }

    function Abstract(): Climb
      reads this
    {
      Climb(openedAt, policy, acknowledgedAt, resolvedAt, delivered)
    }

    method Acknowledge(at: int) returns (ok: bool)
      modifies this`acknowledgedAt
      ensures ok == !Stopped(old(Abstract()))
      ensures Stopped(Abstract())
      ensures acknowledgedAt == if ok then Some(at) else old(acknowledgedAt)
    {
      if acknowledgedAt.Some? || resolvedAt.Some? {
        return false;
      }
      acknowledgedAt := Some(at);
      ok := true;
    }

    method Resolve(at: int)
      modifies this`resolvedAt
      ensures resolvedAt == Some(at)
    {
      resolvedAt := Some(at);
    }

    method Due(now: int) returns (due: seq<Step>)
      ensures due == DueSteps(Abstract(), now)
    {
      due := [];
      for i := 0 to |policy.steps|
        invariant due == DueAmong(Abstract(), now, i)
      {
        if acknowledgedAt.None? && resolvedAt.None? && i !in delivered
           && now - openedAt >= policy.steps[i].afterSeconds * SECOND {
          due := due + [policy.steps[i]];
        }
      }
    }

    // Marks the first step equal to the given one.
    method MarkDelivered(step: Step)
      modifies this`delivered
      ensures delivered == old(delivered) + if step in policy.steps then {IndexOf(policy.steps, step)} else {}
    {
      for i := 0 to |policy.steps|
        invariant step !in policy.steps[..i] && delivered == old(delivered)
      {
        if policy.steps[i] == step {
          delivered := delivered + {i};
          FirstEqualStep(policy.steps, step, i);
          return;
        }
      }
    }

    method NextDue(now: int) returns (at: Option<int>)
      ensures at == NextDueAt(Abstract(), now)
    {
      if acknowledgedAt.Some? || resolvedAt.Some? {
        return None;
      }
      for i := 0 to |policy.steps|
        invariant NextFrom(Abstract(), now, 0) == NextFrom(Abstract(), now, i)
      {
        if i !in delivered {
          var due := openedAt + policy.steps[i].afterSeconds * SECOND;
          if due > now {
            return Some(due);
          }
        }
      }
      at := None;
    }
  }

  lemma {:induction false} FirstEqualStep(steps: seq<Step>, step: Step, i: nat)
    requires i < |steps| && steps[i] == step && step !in steps[..i]
    ensures IndexOf(steps, step) == i
  {
    if i > 0 {
      assert steps[..i][0] == steps[0] && steps[1..][..i - 1] == steps[..i][1..];
      FirstEqualStep(steps[1..], step, i - 1);
    }
  }

  // ---- When to look again -----------------------------------------------------------------------------

  // The same steps are due at both moments.
  ghost predicate SameDue(c: Climb, a: int, b: int) {
    forall i :: 0 <= i < |c.policy.steps| ==> (IsDue(c, i, a) <==> IsDue(c, i, b))
  }

  // The answer is exact: nothing becomes due before it, something does at it, and without an
  // answer nothing ever does.
  ghost predicate WakesExactly(c: Climb, now: int) {
    match NextDueAt(c, now)
    case None => forall t :: t >= now ==> SameDue(c, now, t)
    case Some(at) => at > now && !SameDue(c, now, at) && forall t :: now <= t < at ==> SameDue(c, now, t)
  }

  lemma {:induction false} NextFromIsFirst(c: Climb, now: int, i: nat)
    requires i <= |c.policy.steps|
    ensures NextFrom(c, now, i).None? ==>
              forall k :: i <= k < |c.policy.steps| && k !in c.delivered ==> DueTime(c, k) <= now
    ensures NextFrom(c, now, i).Some? ==>
              exists k :: i <= k < |c.policy.steps| && k !in c.delivered && DueTime(c, k) == NextFrom(c, now, i).value > now
                          && forall j :: i <= j < k && j !in c.delivered ==> DueTime(c, j) <= now
    decreases |c.policy.steps| - i
  {
    hide DueTime;
    if i < |c.policy.steps| && (i in c.delivered || DueTime(c, i) <= now) {
      NextFromIsFirst(c, now, i + 1);
    }
  }

  // EXACT WAKE-UP, for every climb over an ordered policy.
  lemma OrderedWakesExactly(c: Climb, now: int)
    requires Ordered(c.policy.steps)
    ensures WakesExactly(c, now)
  {
    NextFromIsFirst(c, now, 0);
    if !Stopped(c) && NextFrom(c, now, 0).Some? {
      var k :| 0 <= k < |c.policy.steps| && k !in c.delivered && DueTime(c, k) == NextFrom(c, now, 0).value > now
               && forall j :: 0 <= j < k && j !in c.delivered ==> DueTime(c, j) <= now;
      assert IsDue(c, k, DueTime(c, k)) && !IsDue(c, k, now);
    }
  }

  // Only steps that are due from the start may stand after a later one.
  predicate OrderedPastZero(steps: seq<Step>) {
    forall i, j :: 0 <= i < j < |steps| && steps[i].afterSeconds > steps[j].afterSeconds ==> steps[j].afterSeconds == 0
  }

  // Every alarm with the policy wakes exactly, asked at any time since it opened.
  ghost predicate AlwaysWakesExactly(p: Policy) {
    forall c: Climb, now: int :: c.policy == p && now >= c.openedAt ==> WakesExactly(c, now)
  }

  // THE EXACT CONDITION for an exact wake-up once the alarm is open; the constructor asks for a little more.
  lemma WakesExactlyWhenOrdered(p: Policy)
    ensures AlwaysWakesExactly(p) <==> OrderedPastZero(p.steps)
  {
    hide WakesExactly;
    if OrderedPastZero(p.steps) {
      forall c: Climb, now: int | c.policy == p && now >= c.openedAt
        ensures WakesExactly(c, now)
      {
        OrderedPastZeroWakes(c, now);
      }
    } else {
      var c, now := Oversleeper(p);
    }
  }

  lemma OrderedPastZeroWakes(c: Climb, now: int)
    requires OrderedPastZero(c.policy.steps) && now >= c.openedAt
    ensures WakesExactly(c, now)
  {
    NextFromIsFirst(c, now, 0);
    if !Stopped(c) && NextFrom(c, now, 0).Some? {
      var k :| 0 <= k < |c.policy.steps| && k !in c.delivered && DueTime(c, k) == NextFrom(c, now, 0).value > now
               && forall j :: 0 <= j < k && j !in c.delivered ==> DueTime(c, j) <= now;
      assert IsDue(c, k, DueTime(c, k)) && !IsDue(c, k, now);
    }
  }

  predicate Other(k: nat, i: nat, j: nat) { k != i && k != j }

  // A policy whose steps are out of order past the start has an open alarm that oversleeps.
  lemma Oversleeper(p: Policy) returns (c: Climb, now: int)
    requires !OrderedPastZero(p.steps)
    ensures c.policy == p && now >= c.openedAt && !WakesExactly(c, now)
  {
    var i, j :| 0 <= i < j < |p.steps| && p.steps[i].afterSeconds > p.steps[j].afterSeconds > 0;
    var others := set k: nat | k < |p.steps| && Other(k, i, j);
    c := Climb(0, p, None, None, others);
    now := p.steps[j].afterSeconds * SECOND - 1;
    SkipDelivered(c, now, 0, i);
    assert IsDue(c, j, DueTime(c, j)) && !IsDue(c, j, now);
    assert !SameDue(c, now, DueTime(c, j));
  }

  lemma {:induction false} SkipDelivered(c: Climb, now: int, i: nat, k: nat)
    requires i <= k < |c.policy.steps| && (forall j :: i <= j < k ==> j in c.delivered)
    ensures NextFrom(c, now, i) == NextFrom(c, now, k)
    decreases k - i
  {
    if i < k { SkipDelivered(c, now, i + 1, k); }
  }

  // A CRITICAL ALARM CLIMBS FASTER AND FURTHER: the same people in the same order, a guard at once, nobody later, and
  // the owner in the end, within four minutes.
  lemma CriticalClimbsFaster()
    ensures var usual, critical := PolicyFor(false).steps, PolicyFor(true).steps;
            && |usual| == 3 && |critical| == 4
            && (forall i :: 0 <= i < 3 ==> critical[i].role == usual[i].role
                                           && critical[i].afterSeconds <= usual[i].afterSeconds)
            && usual[0] == critical[0] == Step(0, "GUARD", []) && usual[2].afterSeconds == 180
            && critical[1].afterSeconds < usual[1].afterSeconds && critical[2].afterSeconds < usual[2].afterSeconds
            && usual[1].role == "SITE_MANAGER" && usual[2].role == "SECURITY_MANAGER"
            && critical[3].role == "OWNER" && critical[3].afterSeconds == 240
  {
  }
}
