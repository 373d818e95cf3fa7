/** What an admission and a refresh make of the scanner's state, in fields (app/services/scanner_full.py,
    app/services/scanner_runtime.py). */
module ScannerRules {
  import opened Trading
  import opened Retention
  import opened ScannerTombstones

  predicate Over(l: Lifecycle) { l == Rejected || l == Invalidated || l == Expired }

  /** The state after `c` ended, before the retention limits are applied. */
  function Ended(s: State, c: Candidate): State {
    State(s.candidates[c.id := c], s.contexts - {c.id}, s.tombstones + {c.id}, s.cooldowns[c.key := c.evaluatedAt])
  }

  /** The earlier of two entries goes first, ties by the text of the key. */
  predicate Earlier(timeA: int, keyA: string, timeB: int, keyB: string) {
    timeA < timeB || (timeA == timeB && TextLess(keyA, keyB))
  }

  /** Nothing but terminal payloads and cooldown entries is ever pruned: of the payloads of ended candidates and of the
      cooldowns exactly the excess over the limit, and none that is kept is earlier than one that goes. */
  ghost predicate Trimmed(before: State, after: State, limits: Limits) {
    && after.tombstones == before.tombstones
    && KeepsTheYoung(before.candidates, after.candidates) && KeepsTheRecent(before.cooldowns, after.cooldowns)
    && |after.cooldowns| == (if |before.cooldowns| > limits.cooldownHistory then limits.cooldownHistory else |before.cooldowns|)
    && (forall id :: id in before.candidates ==> (id in after.contexts <==> id in before.contexts && id in after.candidates))
  }

  ghost predicate KeepsTheYoung(before: map<string, Candidate>, after: map<string, Candidate>) {
    && (forall id :: id in after ==> id in before && after[id] == before[id])
    && (forall id :: id in before && !Over(before[id].lifecycle) ==> id in after)
    && (forall gone, kept :: gone in before && gone !in after && kept in after && Over(before[kept].lifecycle) ==>
          !Earlier(before[kept].evaluatedAt, kept, before[gone].evaluatedAt, gone))
  }

  ghost predicate KeepsTheRecent(before: map<string, int>, after: map<string, int>) {
    && (forall key :: key in after ==> key in before && after[key] == before[key])
    && (forall gone, kept :: gone in before && gone !in after && kept in after ==> !Earlier(before[kept], kept, before[gone], gone))
  }

  lemma CandidatesTrimmed(before: map<string, Candidate>, gone: seq<string>, limit: nat)
    requires IsOverflow(TerminalItems(before), gone, limit)
    ensures KeepsTheYoung(before, before - Members(gone))
  {
    hide TextLess, Members;
  }

  lemma CooldownsTrimmed(before: map<string, int>, gone: seq<string>, limit: nat)
    requires IsOverflow(CooldownItems(before), gone, limit)
    ensures KeepsTheRecent(before, before - Members(gone))
  {
    hide TextLess, Members;
  }

  lemma PrunedIsTrimmed(before: State, after: State, limits: Limits)
    requires Pruned(before, after, limits)
    ensures Trimmed(before, after, limits)
  {
    hide TextLess, IsOverflow, KeepsTheYoung, KeepsTheRecent, TerminalItems, CooldownItems, Members;
    var gone, lifted :|
      && IsOverflow(TerminalItems(before.candidates), gone, limits.terminalCandidates)
      && IsOverflow(CooldownItems(before.cooldowns), lifted, limits.cooldownHistory)
      && after == State(before.candidates - Members(gone), before.contexts - Members(gone), before.tombstones, before.cooldowns - Members(lifted));
    CandidatesTrimmed(before.candidates, gone, limits.terminalCandidates);
    CooldownsTrimmed(before.cooldowns, lifted, limits.cooldownHistory);
    CooldownCount(before.cooldowns, lifted, limits.cooldownHistory);
  }

  lemma CooldownCount(cooldowns: map<string, int>, lifted: seq<string>, limit: nat)
    requires IsOverflow(CooldownItems(cooldowns), lifted, limit)
    ensures |cooldowns - Members(lifted)| == if |cooldowns| > limit then limit else |cooldowns|
  {
    hide Older;
    SizeAfter(cooldowns.Keys, lifted);
    assert |CooldownItems(cooldowns)| == |cooldowns| by { assert CooldownItems(cooldowns).Keys == cooldowns.Keys; }
    assert (cooldowns - Members(lifted)).Keys == cooldowns.Keys - Members(lifted);
  }

  /** A discovered candidate is turned away exactly when its id has ended before or its key is cooling down; otherwise it is
      stored, QUALIFIED if it was stored as that, with a context exactly when it is not over. */
  lemma AdmissionExactly(before: State, c: Candidate, now: int, limits: Limits, after: State)
    requires Admits(before, c, now, limits, after)
    ensures var kept := if c.id in before.candidates && before.candidates[c.id].lifecycle == Qualified then c.(lifecycle := Qualified) else c;
      if c.id in before.tombstones || (c.key in before.cooldowns && now - before.cooldowns[c.key] < limits.cooldown) then after == before
      else if Over(kept.lifecycle) then Trimmed(Ended(before, kept), after, limits)
      else after == State(before.candidates[c.id := kept], before.contexts + {c.id}, before.tombstones, before.cooldowns)
  {
    hide Pruned, Trimmed;
    if !Refused(before, c, now, limits.cooldown) {
      var kept := Admitted(before, c);
      if Terminal(kept.lifecycle) {
        PrunedIsTrimmed(Buried(before.(candidates := before.candidates[c.id := kept]), kept), after, limits);
      }
    }
  }

  /** A refresh moves an active candidate only: a verdict that ends it buries it at the time of the refresh, one that keeps it
      stores its lifecycle and time, a failed one and one about anything else changes nothing. */
  lemma RefreshExactly(before: State, id: string, outcome: Outcome, now: int, limits: Limits, after: State)
    requires Refreshes(before, id, outcome, now, limits, after) && (id in before.candidates ==> before.candidates[id].id == id)
    ensures
      if id !in before.candidates || Over(before.candidates[id].lifecycle) || outcome.Failed? then after == before
      else
        var c := before.candidates[id];
        if outcome.Ended? then
          if Over(outcome.terminal) then Trimmed(Ended(before, c.(lifecycle := outcome.terminal, evaluatedAt := now)), after, limits)
          else after == before
        else after == before.(candidates := before.candidates[id := c.(lifecycle := if Over(outcome.active) then c.lifecycle else outcome.active, evaluatedAt := now)])
  {
    hide Pruned, Trimmed;
    if id in before.candidates && !Terminal(before.candidates[id].lifecycle) && outcome.Ended? && Terminal(outcome.terminal) {
      var ended := before.candidates[id].(lifecycle := outcome.terminal, evaluatedAt := now);
      PrunedIsTrimmed(Buried(before.(candidates := before.candidates[id := ended]), ended), after, limits);
    }
  }
}
