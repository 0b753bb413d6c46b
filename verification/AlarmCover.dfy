// The window is asked before the rules: which matching sightings an alarm speaks for.
module AlarmCover {
  import opened Options
  import opened AlarmFlow
  import Dedup

  function EntriesAt(window: int, turns: seq<Turn>, k: nat): Dedup.Entries
    requires k <= |turns|
  {
    Finally(window, map[], turns[..k])
  }

  predicate IsSighting(t: Turn, key: string) { ReachesDedup(t.r, t.outages) && t.r.event.value.dedupKey == key }

  // The turn opens the window of the key.
  predicate OpensAt(window: int, turns: seq<Turn>, k: nat, key: string) {
    && k < |turns| && IsSighting(turns[k], key)
    && Dedup.Opens(window, Dedup.Lookup(EntriesAt(window, turns, k), key), turns[k].moment)
  }

  // Some rule of the site matches the event of the turn.
  ghost predicate RulesMatch(t: Turn) { t.r.event.Some? && SomeRuleMatches(t.r.event.value, t.ctx, t.ai) }

  // At turn i, the open window of the key is the one turn j opened.
  ghost predicate OpenedBy(window: int, turns: seq<Turn>, key: string, i: nat, j: nat) {
    && j <= i < |turns| && OpensAt(window, turns, j, key)
    && forall k :: j < k <= i ==> !OpensAt(window, turns, k, key)
  }

  predicate AlarmsAt(window: int, turns: seq<Turn>, k: nat, key: string) {
    k < |turns| && AlarmsFor(window, EntriesAt(window, turns, k), turns[k], key)
  }

  // An alarm of the key was raised since turn j.
  ghost predicate Covered(window: int, turns: seq<Turn>, key: string, i: nat, j: nat) {
    exists k :: j <= k <= i && AlarmsAt(window, turns, k, key)
  }

  lemma {:induction false} FinallyOneMore(window: int, entries: Dedup.Entries, turns: seq<Turn>, t: Turn)
    ensures Finally(window, entries, turns + [t]) == Next(window, Finally(window, entries, turns), t)
    decreases |turns|
  {
    hide Next;
    if turns == [] {
      assert ([] + [t])[1..] == [];
    } else {
      assert (turns + [t])[1..] == turns[1..] + [t];
      FinallyOneMore(window, Next(window, entries, turns[0]), turns[1..], t);
    }
  }

  lemma EntriesStep(window: int, turns: seq<Turn>, k: nat)
    requires k < |turns|
    ensures EntriesAt(window, turns, k + 1) == Next(window, EntriesAt(window, turns, k), turns[k])
  {
    assert turns[..k + 1] == turns[..k] + [turns[k]];
    FinallyOneMore(window, map[], turns[..k], turns[k]);
  }

  // A key is in the window exactly since some turn opened it, and its entry tells when.
  lemma {:induction false} EntryHasOpener(window: int, turns: seq<Turn>, key: string, k: nat) returns (j: nat)
    requires k <= |turns| && key in EntriesAt(window, turns, k)
    ensures j < k && OpenedBy(window, turns, key, k - 1, j)
    ensures EntriesAt(window, turns, k)[key].firstSeen == turns[j].moment
  {
    hide OpensAt, EntriesAt;
    if k == 0 {
      NothingAtFirst(window, turns);
    } else {
      EntriesStep(window, turns, k - 1);
      StepOpensOrKeeps(window, turns, k - 1, key);
      if OpensAt(window, turns, k - 1, key) {
        j := k - 1;
      } else {
        j := EntryHasOpener(window, turns, key, k - 1);
      }
    }
  }

  lemma NothingAtFirst(window: int, turns: seq<Turn>)
    ensures EntriesAt(window, turns, 0) == map[]
  {
    assert turns[..0] == [];
  }

  lemma StepOpensOrKeeps(window: int, turns: seq<Turn>, k: nat, key: string)
    requires k < |turns|
    ensures var before, after := EntriesAt(window, turns, k), Next(window, EntriesAt(window, turns, k), turns[k]);
            && (OpensAt(window, turns, k, key) ==> key in after && after[key].firstSeen == turns[k].moment)
            && (!OpensAt(window, turns, k, key) && key in after ==>
                  key in before && after[key].firstSeen == before[key].firstSeen)
            && (IsSighting(turns[k], key) ==> key in after)
  {
    hide EntriesAt, IsSuppressed;
  }

  lemma AlarmIsAnOpening(window: int, turns: seq<Turn>, k: nat, key: string)
    requires k < |turns|
    ensures AlarmsAt(window, turns, k, key)
       <==> OpensAt(window, turns, k, key) && RulesMatch(turns[k])
  {
    hide EntriesAt, SomeRuleMatches, LoudestMatch, Outcomes, Sight, IsSuppressed, Dedup.Opens;
    var t := turns[k];
    AlarmExactly(t.r, t.ctx, t.outages, window, EntriesAt(window, turns, k), t.ai, t.moment);
  }

  // WHAT AN ALARM SPEAKS FOR, exactly. Every sighting that reaches the window has an opener, and an alarm of its
  // key was raised in the open window if and only if the rules matched that opener. A matching sighting behind
  // an unmatched opener is counted and never alarmed on.
  lemma CoveredExactly(window: int, turns: seq<Turn>, key: string, i: nat) returns (j: nat)
    requires i < |turns| && IsSighting(turns[i], key)
    ensures OpenedBy(window, turns, key, i, j)
    ensures Covered(window, turns, key, i, j)
       <==> RulesMatch(turns[j])
  {
    hide OpensAt, EntriesAt, AlarmsAt, RulesMatch, IsSighting;
    EntriesStep(window, turns, i);
    StepOpensOrKeeps(window, turns, i, key);
    j := EntryHasOpener(window, turns, key, i + 1);
    forall k | j <= k <= i
      ensures AlarmsAt(window, turns, k, key)
         <==> OpensAt(window, turns, k, key) && RulesMatch(turns[k])
    {
      AlarmIsAnOpening(window, turns, k, key);
    }
  }
}
