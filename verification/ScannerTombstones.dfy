/** The scanner's long-lived candidate state: admission by a full scan (app/services/scanner_full.py), transitions by an
    active refresh (app/services/scanner.py), tombstones, cooldowns and pruning (app/services/scanner_runtime.py). The
    strategy's verdict on a candidate is an input. A cooldown key, the triple of symbol, direction and setup, is one
    text. */
module ScannerTombstones {
  import opened Trading
  import opened Retention

  datatype Lifecycle = Detected | WatchNear | Qualified | Rejected | Invalidated | Expired

  predicate Terminal(l: Lifecycle) { l == Rejected || l == Invalidated || l == Expired }

  datatype Candidate = Candidate(id: string, key: string, lifecycle: Lifecycle, evaluatedAt: int)

  datatype Limits = Limits(terminalCandidates: nat, cooldownHistory: nat, selected: nat, runs: nat, cooldown: int)

  /** `tombstones` are the ids that ever became terminal; `cooldowns` the last terminal time of each key. */
  datatype State = State(candidates: map<string, Candidate>, contexts: set<string>, tombstones: set<string>, cooldowns: map<string, int>)

  // ---------------------------------------------------------------- terminal bookkeeping

  function TerminalItems(candidates: map<string, Candidate>): (items: map<string, Item>)
    ensures forall id :: id in items <==> id in candidates && Terminal(candidates[id].lifecycle)
    ensures forall id :: id in items ==> items[id] == Item(id, 0, candidates[id].evaluatedAt, id)
  {
    map id | id in candidates && Terminal(candidates[id].lifecycle) :: Item(id, 0, candidates[id].evaluatedAt, id)
  }

  function CooldownItems(cooldowns: map<string, int>): (items: map<string, Item>)
    ensures items.Keys == cooldowns.Keys && forall key :: key in cooldowns ==> items[key] == Item(key, 0, cooldowns[key], key)
  {
    map key | key in cooldowns :: Item(key, 0, cooldowns[key], key)
  }

  /** `_prune_terminal_state`: the oldest terminal payloads and cooldowns beyond the limits go; tombstones stay. */
  ghost predicate Pruned(before: State, after: State, limits: Limits) {
    exists gone, lifted ::
      && IsOverflow(TerminalItems(before.candidates), gone, limits.terminalCandidates)
      && IsOverflow(CooldownItems(before.cooldowns), lifted, limits.cooldownHistory)
      && after == State(before.candidates - Members(gone), before.contexts - Members(gone), before.tombstones, before.cooldowns - Members(lifted))
  }

  /** The state `_record_terminal` prunes. */
  function Buried(s: State, c: Candidate): State {
    State(s.candidates, s.contexts - {c.id}, s.tombstones + {c.id}, s.cooldowns[c.key := c.evaluatedAt])
  }

  // ---------------------------------------------------------------- steps

  /** One discovered candidate in the selection loop of a full scan. */
  predicate Refused(s: State, c: Candidate, now: int, cooldown: int) {
    c.id in s.tombstones || (c.key in s.cooldowns && now < s.cooldowns[c.key] + cooldown)
  }

  /** A re-discovered qualified candidate stays qualified. */
  function Admitted(s: State, c: Candidate): Candidate {
    if c.id in s.candidates && s.candidates[c.id].lifecycle == Qualified then c.(lifecycle := Qualified) else c
  }

  ghost predicate Admits(before: State, c: Candidate, now: int, limits: Limits, after: State) {
    if Refused(before, c, now, limits.cooldown) then after == before
    else
      var kept := Admitted(before, c);
      var stored := before.(candidates := before.candidates[c.id := kept]);
      if Terminal(kept.lifecycle) then Pruned(Buried(stored, kept), after, limits)
      else after == stored.(contexts := stored.contexts + {c.id})
  }

  /** What a refresh decides about one active candidate. */
  datatype Outcome = Ended(terminal: Lifecycle) | Kept(active: Lifecycle) | Failed

  ghost predicate Refreshes(before: State, id: string, outcome: Outcome, now: int, limits: Limits, after: State) {
    if id !in before.candidates || Terminal(before.candidates[id].lifecycle) then after == before
    else
      var c := before.candidates[id];
      match outcome
      case Failed => after == before
      case Kept(l) => after == before.(candidates := before.candidates[id := c.(lifecycle := if Terminal(l) then c.lifecycle else l, evaluatedAt := now)])
      case Ended(l) =>
        if !Terminal(l) then after == before
        else
          var ended := c.(lifecycle := l, evaluatedAt := now);
          Pruned(Buried(before.(candidates := before.candidates[id := ended]), ended), after, limits)
  }

  /** How many of the first `n` discoveries took a slot: neither refused nor stored as ended. */
  function Slots(trace: seq<State>, discovered: seq<Candidate>, now: int, cooldown: int, n: nat): nat
    requires n <= |trace| && n <= |discovered|
  {
    if n == 0 then 0
    else
      Slots(trace, discovered, now, cooldown, n - 1)
      + (if !Refused(trace[n - 1], discovered[n - 1], now, cooldown) && !Terminal(Admitted(trace[n - 1], discovered[n - 1]).lifecycle) then 1 else 0)
  }

  lemma {:induction false} SlotsOfPrefix(trace: seq<State>, longer: seq<State>, discovered: seq<Candidate>, now: int, cooldown: int, n: nat)
    requires trace <= longer && n <= |trace| && n <= |discovered|
    ensures Slots(longer, discovered, now, cooldown, n) == Slots(trace, discovered, now, cooldown, n)
  {
    if n > 0 { SlotsOfPrefix(trace, longer, discovered, now, cooldown, n - 1); }
  }

  // ---------------------------------------------------------------- the service

  class ScannerService {
    const limits: Limits
    var candidates: map<string, Candidate>
    var contexts: set<string>
    var tombstones: set<string>
    var cooldowns: map<string, int>
    var runs: seq<int>

    function Contents(): State
      reads this
    {
      State(candidates, contexts, tombstones, cooldowns)
    }

    method PruneTerminalState()
      modifies this`candidates, this`contexts, this`cooldowns
      ensures Pruned(old(Contents()), Contents(), limits)
    {
      hide IsOverflow;
      var gone := Overflow(TerminalItems(candidates), limits.terminalCandidates);
      var lifted := Overflow(CooldownItems(cooldowns), limits.cooldownHistory);
      candidates, contexts, cooldowns := candidates - Members(gone), contexts - Members(gone), cooldowns - Members(lifted);
    }

    method RecordTerminal(c: Candidate)
      modifies this`candidates, this`contexts, this`tombstones, this`cooldowns
      ensures Pruned(Buried(old(Contents()), c), Contents(), limits)
    {
      hide Pruned;
      tombstones := tombstones + {c.id};
      cooldowns := cooldowns[c.key := c.evaluatedAt];
      contexts := contexts - {c.id};
      PruneTerminalState();
    }

    /** One iteration of the full scan's loop; `selected` tells whether the candidate took a slot. */
    method Admit(c: Candidate, now: int) returns (selected: bool)
      modifies this`candidates, this`contexts, this`tombstones, this`cooldowns
      ensures Admits(old(Contents()), c, now, limits, Contents())
      ensures selected <==> !Refused(old(Contents()), c, now, limits.cooldown) && !Terminal(Admitted(old(Contents()), c).lifecycle)
    {
      hide Pruned;
      if c.id in tombstones { return false; }
      if c.key in cooldowns && now < cooldowns[c.key] + limits.cooldown { return false; }
      var kept := c;
      if c.id in candidates && candidates[c.id].lifecycle == Qualified { kept := c.(lifecycle := Qualified); }
      candidates := candidates[c.id := kept];
      if Terminal(kept.lifecycle) {
        RecordTerminal(kept);
        return false;
      }
      contexts := contexts + {c.id};
      return true;
    }

    /** The selection loop over the ranked discoveries, stopping at the selection limit. */
    method SelectDiscovered(discovered: seq<Candidate>, now: int) returns (selected: nat, ghost trace: seq<State>)
      requires 0 < limits.selected
      modifies this`candidates, this`contexts, this`tombstones, this`cooldowns
      ensures 1 <= |trace| <= |discovered| + 1 && trace[0] == old(Contents()) && trace[|trace| - 1] == Contents()
      ensures forall i :: 0 <= i < |trace| - 1 ==> Admits(trace[i], discovered[i], now, limits, trace[i + 1])
      ensures selected == Slots(trace, discovered, now, limits.cooldown, |trace| - 1) <= limits.selected
      ensures |trace| <= |discovered| ==> selected == limits.selected
    {
      hide Admits, Refused, Admitted;
      selected, trace := 0, [Contents()];
      for i := 0 to |discovered|
        invariant |trace| == i + 1 && trace[0] == old(Contents()) && trace[i] == Contents()
        invariant forall j :: 0 <= j < i ==> Admits(trace[j], discovered[j], now, limits, trace[j + 1])
        invariant selected == Slots(trace, discovered, now, limits.cooldown, i) < limits.selected
      {
        ghost var before := trace;
        var took := Admit(discovered[i], now);
        trace := trace + [Contents()];
        SlotsOfPrefix(before, trace, discovered, now, limits.cooldown, i);
        if took {
          selected := selected + 1;
          if selected >= limits.selected { return; }
        }
      }
    }

    /** `_terminal` and the lifecycle assignments of a refresh, for one candidate. */
    method Refresh(id: string, outcome: Outcome, now: int)
      modifies this`candidates, this`contexts, this`tombstones, this`cooldowns
      ensures Refreshes(old(Contents()), id, outcome, now, limits, Contents())
    {
      hide Pruned;
      if id !in candidates || Terminal(candidates[id].lifecycle) { return; }
      match outcome {
        case Failed =>
        case Kept(l) =>
          candidates := candidates[id := candidates[id].(lifecycle := if Terminal(l) then candidates[id].lifecycle else l, evaluatedAt := now)];
        case Ended(l) =>
          if Terminal(l) {
            var ended := candidates[id].(lifecycle := l, evaluatedAt := now);
            candidates := candidates[id := ended];
            RecordTerminal(ended);
          }
      }
    }

    /** `_append_run`: the last runs, up to the limit. */
    method AppendRun(run: int)
      modifies this`runs
      ensures runs == (old(runs) + [run])[if |old(runs)| + 1 > limits.runs then |old(runs)| + 1 - limits.runs else 0..]
    {
      runs := runs + [run];
      var overflow := |runs| - limits.runs;
      if overflow > 0 { runs := runs[overflow..]; }
    }
  }

  // ---------------------------------------------------------------- the invariant

  /** Stored ids are consistent; contexts are exactly those of active candidates; terminal candidates and only they
      bear a tombstone; payloads and cooldowns are within their limits. */
  ghost predicate Sound(s: State, limits: Limits) {
    && (forall id :: id in s.candidates ==> s.candidates[id].id == id)
    && (forall id :: id in s.contexts <==> id in s.candidates && !Terminal(s.candidates[id].lifecycle))
    && (forall id :: id in s.candidates ==> (Terminal(s.candidates[id].lifecycle) <==> id in s.tombstones))
    && |TerminalItems(s.candidates)| <= limits.terminalCandidates
    && |s.cooldowns| <= limits.cooldownHistory
  }

  /** Everything but the limits, which a burial may overrun until it prunes. */
  ghost predicate Consistent(s: State) {
    && (forall id :: id in s.candidates ==> s.candidates[id].id == id)
    && (forall id :: id in s.contexts <==> id in s.candidates && !Terminal(s.candidates[id].lifecycle))
    && (forall id :: id in s.candidates ==> (Terminal(s.candidates[id].lifecycle) <==> id in s.tombstones))
  }

  lemma PruneRestoresLimits(before: State, after: State, limits: Limits)
    requires Consistent(before) && Pruned(before, after, limits)
    ensures Sound(after, limits) && after.tombstones == before.tombstones
  {
    hide IsOverflow, Consistent;
    var gone, lifted :|
      && IsOverflow(TerminalItems(before.candidates), gone, limits.terminalCandidates)
      && IsOverflow(CooldownItems(before.cooldowns), lifted, limits.cooldownHistory)
      && after == State(before.candidates - Members(gone), before.contexts - Members(gone), before.tombstones, before.cooldowns - Members(lifted));
    CandidatesShrink(before.candidates, gone, limits.terminalCandidates);
    CooldownsShrink(before.cooldowns, lifted, limits.cooldownHistory);
    ConsistentWithout(before, Members(gone), after);
    hide Members;
    ConsistentAndSmall(after, limits);
  }

  lemma ConsistentWithout(before: State, gone: set<string>, after: State)
    requires Consistent(before) && after.candidates == before.candidates - gone && after.contexts == before.contexts - gone && after.tombstones == before.tombstones
    ensures Consistent(after)
  {
  }

  lemma ConsistentAndSmall(s: State, limits: Limits)
    requires Consistent(s) && |TerminalItems(s.candidates)| <= limits.terminalCandidates && |s.cooldowns| <= limits.cooldownHistory
    ensures Sound(s, limits)
  {
    hide TerminalItems;
  }

  lemma CandidatesShrink(candidates: map<string, Candidate>, gone: seq<string>, limit: nat)
    requires IsOverflow(TerminalItems(candidates), gone, limit)
    ensures |TerminalItems(candidates - Members(gone))| <= limit
    ensures forall id :: id in Members(gone) ==> id in candidates && Terminal(candidates[id].lifecycle)
  {
    hide Older;
    var items := TerminalItems(candidates);
    SizeAfter(items.Keys, gone);
    assert TerminalItems(candidates - Members(gone)).Keys == items.Keys - Members(gone);
  }

  lemma CooldownsShrink(cooldowns: map<string, int>, lifted: seq<string>, limit: nat)
    requires IsOverflow(CooldownItems(cooldowns), lifted, limit)
    ensures |cooldowns - Members(lifted)| <= limit
  {
    hide Older;
    SizeAfter(cooldowns.Keys, lifted);
    assert |CooldownItems(cooldowns)| == |cooldowns| by { assert CooldownItems(cooldowns).Keys == cooldowns.Keys; }
    assert (cooldowns - Members(lifted)).Keys == cooldowns.Keys - Members(lifted);
  }

  /** A terminal candidate may be buried: afterwards ids, contexts and tombstones are consistent again. */
  lemma BurialIsConsistent(s: State, c: Candidate)
    requires Consistent(s) && Terminal(c.lifecycle)
    ensures Consistent(Buried(s.(candidates := s.candidates[c.id := c]), c))
  {
  }

  lemma SoundIsConsistent(s: State, limits: Limits)
    requires Sound(s, limits)
    ensures Consistent(s)
  {
  }

  lemma SameTerminals(a: map<string, Candidate>, b: map<string, Candidate>)
    requires forall id :: (id in a && Terminal(a[id].lifecycle)) <==> (id in b && Terminal(b[id].lifecycle))
    ensures |TerminalItems(a)| == |TerminalItems(b)|
  {
    assert TerminalItems(a).Keys == TerminalItems(b).Keys;
  }

  lemma AdmitKeepsSound(before: State, c: Candidate, now: int, limits: Limits, after: State)
    requires Sound(before, limits) && Admits(before, c, now, limits, after)
    ensures Sound(after, limits) && before.tombstones <= after.tombstones
  {
    hide Pruned, Sound, TerminalItems;
    assert Consistent(before) by { SoundIsConsistent(before, limits); }
    hide Consistent;
    if !Refused(before, c, now, limits.cooldown) {
      var kept := Admitted(before, c);
      if Terminal(kept.lifecycle) {
        BurialIsConsistent(before, kept);
        PruneRestoresLimits(Buried(before.(candidates := before.candidates[c.id := kept]), kept), after, limits);
      } else {
        ActiveAdmission(before, kept, limits);
      }
    }
  }

  lemma ActiveAdmission(s: State, c: Candidate, limits: Limits)
    requires Sound(s, limits) && !Terminal(c.lifecycle) && c.id !in s.tombstones
    ensures Sound(s.(candidates := s.candidates[c.id := c], contexts := s.contexts + {c.id}), limits)
  {
    SameTerminals(s.candidates, s.candidates[c.id := c]);
  }

  lemma RefreshKeepsSound(before: State, id: string, outcome: Outcome, now: int, limits: Limits, after: State)
    requires Sound(before, limits) && Refreshes(before, id, outcome, now, limits, after)
    ensures Sound(after, limits) && before.tombstones <= after.tombstones
  {
    hide Pruned;
    if id in before.candidates && !Terminal(before.candidates[id].lifecycle) {
      match outcome
      case Failed =>
      case Kept(_) => SameTerminals(before.candidates, after.candidates);
      case Ended(l) =>
        if Terminal(l) {
          var ended := before.candidates[id].(lifecycle := l, evaluatedAt := now);
          BurialIsConsistent(before, ended);
          PruneRestoresLimits(Buried(before.(candidates := before.candidates[id := ended]), ended), after, limits);
        }
    }
  }

  // ---------------------------------------------------------------- runs

  datatype Action = Discover(candidate: Candidate, now: int) | Reassess(id: string, outcome: Outcome, at: int)

  ghost predicate Acts(before: State, a: Action, limits: Limits, after: State) {
    match a
    case Discover(c, now) => Admits(before, c, now, limits, after)
    case Reassess(id, outcome, at) => Refreshes(before, id, outcome, at, limits, after)
  }

  ghost predicate IsRun(states: seq<State>, actions: seq<Action>, limits: Limits) {
    && |states| == |actions| + 1
    && (forall i :: 0 <= i < |actions| ==> Acts(states[i], actions[i], limits, states[i + 1]))
  }

  ghost predicate Fresh(s: State) {
    s == State(map[], {}, {}, map[])
  }

  lemma FreshIsSound(s: State, limits: Limits)
    requires Fresh(s)
    ensures Sound(s, limits)
  {
    assert TerminalItems(s.candidates) == map[];
  }

  /** Over every interleaving of admissions and refreshes the state is sound, and tombstones are never lifted. */
  lemma {:induction false} RunsKeepSound(states: seq<State>, actions: seq<Action>, limits: Limits, m: nat, n: nat)
    requires IsRun(states, actions, limits) && Fresh(states[0]) && m <= n <= |actions|
    ensures Sound(states[n], limits) && states[m].tombstones <= states[n].tombstones
    decreases n
  {
    hide Sound, Admits, Refreshes;
    if n == 0 {
      FreshIsSound(states[0], limits);
    } else {
      RunsKeepSound(states, actions, limits, if m < n then m else n - 1, n - 1);
      assert Acts(states[n - 1], actions[n - 1], limits, states[n]);
      match actions[n - 1]
      case Discover(c, now) => AdmitKeepsSound(states[n - 1], c, now, limits, states[n]);
      case Reassess(id, outcome, at) => RefreshKeepsSound(states[n - 1], id, outcome, at, limits, states[n]);
    }
  }

  /** A candidate id that has become terminal is never active again, even after its payload is pruned. */
  lemma TerminalIdsNeverReactivate(states: seq<State>, actions: seq<Action>, limits: Limits, m: nat, n: nat, id: string)
    requires IsRun(states, actions, limits) && Fresh(states[0]) && m <= n <= |actions|
    requires id in states[m].candidates && Terminal(states[m].candidates[id].lifecycle)
    ensures id !in states[n].contexts
    ensures id in states[n].candidates ==> Terminal(states[n].candidates[id].lifecycle)
  {
    hide IsRun;
    RunsKeepSound(states, actions, limits, m, m);
    RunsKeepSound(states, actions, limits, m, n);
  }

  // ---------------------------------------------------------------- cooldowns over runs

  /** The candidate a step makes terminal, if it makes one terminal. */
  function Burial(s: State, a: Action, limits: Limits): Option<Candidate> {
    match a
    case Discover(c, now) =>
      if !Refused(s, c, now, limits.cooldown) && Terminal(Admitted(s, c).lifecycle) then Some(Admitted(s, c)) else None
    case Reassess(id, outcome, at) =>
      if id in s.candidates && !Terminal(s.candidates[id].lifecycle) && outcome.Ended? && Terminal(outcome.terminal)
      then Some(s.candidates[id].(lifecycle := outcome.terminal, evaluatedAt := at)) else None
  }

  predicate Buries(s: State, a: Action, limits: Limits, key: string) {
    Burial(s, a, limits).Some? && Burial(s, a, limits).value.key == key
  }

  /** When a candidate with this key last became terminal in the first `n` steps. */
  function LastTerminal(states: seq<State>, actions: seq<Action>, limits: Limits, key: string, n: nat): Option<int>
    requires |states| == |actions| + 1 && n <= |actions|
  {
    if n == 0 then None
    else if Buries(states[n - 1], actions[n - 1], limits, key) then Some(Burial(states[n - 1], actions[n - 1], limits).value.evaluatedAt)
    else LastTerminal(states, actions, limits, key, n - 1)
  }

  /** The evaluation time a step brings with it. */
  function EvaluatedAt(a: Action): int {
    match a
    case Discover(c, _) => c.evaluatedAt
    case Reassess(_, _, at) => at
  }

  predicate ClockNeverGoesBack(actions: seq<Action>) {
    forall i, j :: 0 <= i < j < |actions| ==> EvaluatedAt(actions[i]) <= EvaluatedAt(actions[j])
  }

  /** What one step may do to the cooldown of a key: set it when a candidate with the key becomes terminal, drop it when
      the history is full of entries at least as young, and nothing else. */
  ghost predicate CooldownStep(before: State, a: Action, limits: Limits, after: State, key: string) {
    var due := if Buries(before, a, limits, key) then Some(Burial(before, a, limits).value.evaluatedAt)
               else if key in before.cooldowns then Some(before.cooldowns[key]) else None;
    && (key in after.cooldowns ==> due == Some(after.cooldowns[key]))
    && (key !in after.cooldowns && due.Some? ==>
          |after.cooldowns| == limits.cooldownHistory && forall other :: other in after.cooldowns ==> due.value <= after.cooldowns[other])
  }

  lemma PruningDropsTheOldest(before: State, after: State, limits: Limits, key: string)
    requires Pruned(before, after, limits)
    ensures key in after.cooldowns ==> key in before.cooldowns && after.cooldowns[key] == before.cooldowns[key]
    ensures key in before.cooldowns && key !in after.cooldowns ==>
              |after.cooldowns| == limits.cooldownHistory && forall other :: other in after.cooldowns ==> before.cooldowns[key] <= after.cooldowns[other]
  {
    hide IsOverflow, TerminalItems;
    var gone, lifted :|
      && IsOverflow(TerminalItems(before.candidates), gone, limits.terminalCandidates)
      && IsOverflow(CooldownItems(before.cooldowns), lifted, limits.cooldownHistory)
      && after == State(before.candidates - Members(gone), before.contexts - Members(gone), before.tombstones, before.cooldowns - Members(lifted));
    if key in before.cooldowns && key in Members(lifted) { LiftedIsOldest(before.cooldowns, lifted, limits.cooldownHistory, key); }
  }

  lemma LiftedIsOldest(cooldowns: map<string, int>, lifted: seq<string>, limit: nat, key: string)
    requires IsOverflow(CooldownItems(cooldowns), lifted, limit) && key in Members(lifted)
    ensures key in cooldowns && |cooldowns - Members(lifted)| == limit
    ensures forall other :: other in cooldowns - Members(lifted) ==> cooldowns[key] <= cooldowns[other]
  {
    hide TextLess;
    SizeAfter(cooldowns.Keys, lifted);
    assert |CooldownItems(cooldowns)| == |cooldowns| by { assert CooldownItems(cooldowns).Keys == cooldowns.Keys; }
    assert (cooldowns - Members(lifted)).Keys == cooldowns.Keys - Members(lifted);
    forall other | other in cooldowns - Members(lifted) ensures cooldowns[key] <= cooldowns[other] {
      assert !Older(CooldownItems(cooldowns)[other], CooldownItems(cooldowns)[key]);
    }
  }

  lemma StepsChangeCooldowns(before: State, a: Action, limits: Limits, after: State, key: string)
    requires Acts(before, a, limits, after)
    ensures CooldownStep(before, a, limits, after, key)
  {
    hide Pruned;
    if Burial(before, a, limits).Some? {
      var pending := BurialsPrune(before, a, limits, after);
      PruningDropsTheOldest(pending, after, limits, key);
    }
  }

  lemma BurialsPrune(before: State, a: Action, limits: Limits, after: State) returns (pending: State)
    requires Acts(before, a, limits, after) && Burial(before, a, limits).Some?
    ensures var c := Burial(before, a, limits).value; pending.cooldowns == before.cooldowns[c.key := c.evaluatedAt]
    ensures Pruned(pending, after, limits)
  {
    hide Pruned;
    var c := Burial(before, a, limits).value;
    var id := if a.Discover? then c.id else a.id;
    pending := Buried(before.(candidates := before.candidates[id := c]), c);
  }

  /** A stored cooldown is the last time a candidate with its key became terminal. */
  lemma {:induction false} CooldownsAreLastTerminals(states: seq<State>, actions: seq<Action>, limits: Limits, key: string, n: nat)
    requires IsRun(states, actions, limits) && Fresh(states[0]) && n <= |actions|
    ensures key in states[n].cooldowns ==> LastTerminal(states, actions, limits, key, n) == Some(states[n].cooldowns[key])
  {
    hide Acts, Buries;
    if n > 0 {
      CooldownsAreLastTerminals(states, actions, limits, key, n - 1);
      StepsChangeCooldowns(states[n - 1], actions[n - 1], limits, states[n], key);
    }
  }

  /** The key of some candidate that became terminal at `t` has a cooldown; as long as the entry is retained, no
      discovery with that key before the cooldown is over changes anything, whatever id it bears. */
  lemma CooldownHolds(states: seq<State>, actions: seq<Action>, limits: Limits, m: nat, n: nat, c: Candidate, now: int)
    requires IsRun(states, actions, limits) && Fresh(states[0]) && ClockNeverGoesBack(actions)
    requires m < n < |actions| && actions[n] == Discover(c, now)
    requires Buries(states[m], actions[m], limits, c.key)
    requires c.key in states[n].cooldowns
    requires now < Burial(states[m], actions[m], limits).value.evaluatedAt + limits.cooldown
    ensures states[n + 1] == states[n]
  {
    hide Burial;
    CooldownsAreLastTerminals(states, actions, limits, c.key, n);
    LastTerminalIsLatest(states, actions, limits, c.key, m, n);
    assert Acts(states[n], actions[n], limits, states[n + 1]);
  }

  lemma BurialTime(s: State, a: Action, limits: Limits)
    requires Burial(s, a, limits).Some?
    ensures Burial(s, a, limits).value.evaluatedAt == EvaluatedAt(a)
  {
  }

  lemma {:induction false} LastTerminalIsLatest(states: seq<State>, actions: seq<Action>, limits: Limits, key: string, m: nat, n: nat)
    requires |states| == |actions| + 1 && m < n <= |actions| && ClockNeverGoesBack(actions)
    requires Buries(states[m], actions[m], limits, key)
    ensures var last := LastTerminal(states, actions, limits, key, n);
      last.Some? && last.value >= Burial(states[m], actions[m], limits).value.evaluatedAt
  {
    hide Burial;
    BurialTime(states[m], actions[m], limits);
    if Buries(states[n - 1], actions[n - 1], limits, key) {
      BurialTime(states[n - 1], actions[n - 1], limits);
    } else {
      LastTerminalIsLatest(states, actions, limits, key, m, n - 1);
    }
  }

  /** What the bounded history forgets: a key whose last terminal time has no entry. It is forgotten only while the
      history is full of keys that became terminal no earlier. */
  ghost predicate ForgottenOnlyWhenFull(s: State, last: Option<int>, limits: Limits, key: string) {
    key !in s.cooldowns && last.Some? ==>
      |s.cooldowns| == limits.cooldownHistory && forall other :: other in s.cooldowns ==> last.value <= s.cooldowns[other]
  }

  /** A full history stays full. */
  lemma StepsKeepFull(before: State, a: Action, limits: Limits, after: State)
    requires Acts(before, a, limits, after) && |before.cooldowns| == limits.cooldownHistory
    ensures |after.cooldowns| == limits.cooldownHistory
  {
    hide Pruned;
    if Burial(before, a, limits).Some? {
      var pending := BurialsPrune(before, a, limits, after);
      PrunedSize(pending, after, limits);
      AddedSize(before.cooldowns, Burial(before, a, limits).value);
    }
  }

  lemma AddedSize(cooldowns: map<string, int>, c: Candidate)
    ensures |cooldowns[c.key := c.evaluatedAt]| >= |cooldowns|
  {
    assert cooldowns[c.key := c.evaluatedAt].Keys == cooldowns.Keys + {c.key};
    if c.key !in cooldowns { assert |cooldowns.Keys + {c.key}| == |cooldowns.Keys| + 1; }
    else { assert cooldowns.Keys + {c.key} == cooldowns.Keys; }
  }

  lemma PrunedSize(before: State, after: State, limits: Limits)
    requires Pruned(before, after, limits)
    ensures |after.cooldowns| == if |before.cooldowns| > limits.cooldownHistory then limits.cooldownHistory else |before.cooldowns|
  {
    hide Older, TerminalItems;
    var gone, lifted :|
      && IsOverflow(TerminalItems(before.candidates), gone, limits.terminalCandidates)
      && IsOverflow(CooldownItems(before.cooldowns), lifted, limits.cooldownHistory)
      && after == State(before.candidates - Members(gone), before.contexts - Members(gone), before.tombstones, before.cooldowns - Members(lifted));
    SizeAfter(before.cooldowns.Keys, lifted);
    assert |CooldownItems(before.cooldowns)| == |before.cooldowns| by { assert CooldownItems(before.cooldowns).Keys == before.cooldowns.Keys; }
    assert after.cooldowns.Keys == before.cooldowns.Keys - Members(lifted);
  }

  lemma {:induction false} LastTerminalIsPast(states: seq<State>, actions: seq<Action>, limits: Limits, key: string, n: nat, i: nat)
    requires |states| == |actions| + 1 && ClockNeverGoesBack(actions) && n <= i < |actions|
    ensures var last := LastTerminal(states, actions, limits, key, n); last.Some? ==> last.value <= EvaluatedAt(actions[i])
  {
    hide Burial;
    if n > 0 {
      if Buries(states[n - 1], actions[n - 1], limits, key) { BurialTime(states[n - 1], actions[n - 1], limits); }
      else { LastTerminalIsPast(states, actions, limits, key, n - 1, i); }
    }
  }

  lemma {:induction false} RunsForgetOnlyWhenFull(states: seq<State>, actions: seq<Action>, limits: Limits, key: string, n: nat)
    requires IsRun(states, actions, limits) && Fresh(states[0]) && ClockNeverGoesBack(actions) && n <= |actions|
    ensures ForgottenOnlyWhenFull(states[n], LastTerminal(states, actions, limits, key, n), limits, key)
  {
    hide Acts, Burial, CooldownStep, ClockNeverGoesBack, ForgottenOnlyWhenFull;
    if n == 0 {
      assert ForgottenOnlyWhenFull(states[0], None, limits, key) by { NothingForgotten(states[0], limits, key); }
    } else {
      RunsForgetOnlyWhenFull(states, actions, limits, key, n - 1);
      CooldownsAreLastTerminals(states, actions, limits, key, n - 1);
      var last := LastTerminal(states, actions, limits, key, n - 1);
      LastTerminalIsPast(states, actions, limits, key, n - 1, n - 1);
      StepForgetsOnlyWhenFull(states[n - 1], actions[n - 1], limits, states[n], key, last);
    }
  }

  lemma NothingForgotten(s: State, limits: Limits, key: string)
    ensures ForgottenOnlyWhenFull(s, None, limits, key)
  {
  }

  lemma StepForgetsOnlyWhenFull(before: State, a: Action, limits: Limits, after: State, key: string, last: Option<int>)
    requires Acts(before, a, limits, after) && ForgottenOnlyWhenFull(before, last, limits, key)
    requires key in before.cooldowns ==> last == Some(before.cooldowns[key])
    requires last.Some? ==> last.value <= EvaluatedAt(a)
    ensures ForgottenOnlyWhenFull(after, if Buries(before, a, limits, key) then Some(Burial(before, a, limits).value.evaluatedAt) else last, limits, key)
  {
    hide Acts, Burial;
    StepsChangeCooldowns(before, a, limits, after, key);
    if key !in before.cooldowns && last.Some? && !Buries(before, a, limits, key) {
      StepsKeepFull(before, a, limits, after);
      forall other | other in after.cooldowns ensures last.value <= after.cooldowns[other] {
        StepsChangeCooldowns(before, a, limits, after, other);
        if Buries(before, a, limits, other) { BurialTime(before, a, limits); }
      }
    }
  }

  /** A key is admitted again before its cooldown is over exactly when the bounded history has forgotten it, and then
      only because as many other keys as the history holds became terminal no earlier. */
  lemma ReentryExactlyWhenForgotten(states: seq<State>, actions: seq<Action>, limits: Limits, n: nat, c: Candidate, now: int)
    requires IsRun(states, actions, limits) && Fresh(states[0]) && ClockNeverGoesBack(actions)
    requires n < |actions| && actions[n] == Discover(c, now) && c.id !in states[n].tombstones
    requires LastTerminal(states, actions, limits, c.key, n).Some?
    requires now < LastTerminal(states, actions, limits, c.key, n).value + limits.cooldown
    ensures Refused(states[n], c, now, limits.cooldown) <==> c.key in states[n].cooldowns
    ensures c.key !in states[n].cooldowns ==>
              |states[n].cooldowns| == limits.cooldownHistory
              && forall other :: other in states[n].cooldowns ==>
                   LastTerminal(states, actions, limits, c.key, n).value <= states[n].cooldowns[other]
    ensures c.key !in states[n].cooldowns && !Terminal(Admitted(states[n], c).lifecycle) ==>
              c.id in states[n + 1].contexts && states[n + 1].candidates[c.id] == Admitted(states[n], c)
  {
    hide Burial, Pruned, ClockNeverGoesBack;
    CooldownsAreLastTerminals(states, actions, limits, c.key, n);
    RunsForgetOnlyWhenFull(states, actions, limits, c.key, n);
    assert Acts(states[n], actions[n], limits, states[n + 1]);
  }

  // ---------------------------------------------------------------- the bounded history does forget

  lemma PruneExists(before: State, limits: Limits) returns (after: State)
    ensures Pruned(before, after, limits)
  {
    hide IsOverflow;
    var gone := OverflowExists(TerminalItems(before.candidates), limits.terminalCandidates);
    var lifted := OverflowExists(CooldownItems(before.cooldowns), limits.cooldownHistory);
    after := State(before.candidates - Members(gone), before.contexts - Members(gone), before.tombstones, before.cooldowns - Members(lifted));
  }

  /** The keys and ids of the example: one text of every length. */
  function Name(i: nat): (name: string)
    ensures |name| == i
  {
    seq(i, _ => 'x')
  }

  predicate Named(key: string, n: nat) { |key| < n && key == Name(|key|) }

  /** The first key ends at time 0, every other one at time 1. */
  function EndTime(i: nat): int { if i == 0 then 0 else 1 }

  function Ending(i: nat): Action { Discover(Candidate(Name(i), Name(i), Rejected, EndTime(i)), EndTime(i)) }

  function Endings(n: nat): (actions: seq<Action>)
    ensures |actions| == n && forall i :: 0 <= i < n ==> actions[i] == Ending(i)
  {
    seq(n, i requires 0 <= i < n => Ending(i))
  }

  /** After `n` endings: no id or key but the first `n`, and a cooldown for each of these. */
  ghost predicate Reached(s: State, n: nat) {
    && (forall id :: id in s.candidates || id in s.tombstones ==> Named(id, n))
    && (forall key :: key in s.cooldowns <==> Named(key, n))
    && (forall key :: key in s.cooldowns ==> s.cooldowns[key] == EndTime(|key|))
    && |s.cooldowns| == n && s.contexts == {}
  }

  lemma OneMoreName(key: string, n: nat)
    ensures Named(key, n + 1) <==> Named(key, n) || key == Name(n)
    ensures !Named(Name(n), n)
  {
  }

  lemma ReachOneMore(s: State, n: nat, c: Candidate)
    requires Reached(s, n) && c == Ending(n).candidate
    ensures Reached(Buried(s.(candidates := s.candidates[c.id := c]), c), n + 1)
  {
    hide Named, Name, EndTime;
    forall key: string ensures Named(key, n + 1) <==> Named(key, n) || key == Name(n) { OneMoreName(key, n); }
    OneMoreName(Name(n), n);
    OneMoreCooldown(s.cooldowns, c);
  }

  lemma OneMoreCooldown(cooldowns: map<string, int>, c: Candidate)
    requires c.key !in cooldowns
    ensures |cooldowns[c.key := c.evaluatedAt]| == |cooldowns| + 1
  {
    assert cooldowns[c.key := c.evaluatedAt].Keys == cooldowns.Keys + {c.key};
  }

  lemma EndOne(s: State, n: nat, limits: Limits) returns (pending: State, after: State)
    requires Reached(s, n)
    ensures Acts(s, Ending(n), limits, after) && Burial(s, Ending(n), limits) == Some(Ending(n).candidate)
    ensures Pruned(pending, after, limits) && Reached(pending, n + 1)
  {
    hide Pruned, Named, Name, Buried;
    var c := Ending(n).candidate;
    OneMoreName(c.id, n);
    pending := Buried(s.(candidates := s.candidates[c.id := c]), c);
    ReachOneMore(s, n, c);
    after := PruneExists(pending, limits);
    hide Reached;
  }

  lemma PruningKeepsReached(pending: State, after: State, limits: Limits, n: nat)
    requires Reached(pending, n) && n <= limits.cooldownHistory && Pruned(pending, after, limits)
    ensures Reached(after, n)
  {
    hide Pruned, Named, EndTime;
    PrunedSize(pending, after, limits);
    PrunedTombstones(pending, after, limits);
    forall key | key in after.cooldowns ensures key in pending.cooldowns && after.cooldowns[key] == pending.cooldowns[key] {
      PruningDropsTheOldest(pending, after, limits, key);
    }
    SubsetOfSameSize(after.cooldowns.Keys, pending.cooldowns.Keys);
  }

  lemma SubsetOfSameSize(a: set<string>, b: set<string>)
    requires a <= b && |a| == |b|
    ensures a == b
  {
    assert |b - a| == 0;
  }

  lemma RunExtends(states: seq<State>, actions: seq<Action>, limits: Limits, a: Action, after: State)
    requires IsRun(states, actions, limits) && Acts(states[|actions|], a, limits, after)
    ensures IsRun(states + [after], actions + [a], limits)
  {
    hide Acts;
  }

  lemma {:induction false} EndMany(limits: Limits, n: nat) returns (states: seq<State>)
    requires n <= limits.cooldownHistory
    ensures IsRun(states, Endings(n), limits) && Fresh(states[0]) && Reached(states[n], n)
  {
    hide Acts, Pruned, IsRun, Reached, Ending;
    if n == 0 {
      states := NothingEnded(limits);
    } else {
      states := EndMany(limits, n - 1);
      assert |states| == n by { RunLength(states, Endings(n - 1), limits); }
      var pending, after := EndOne(states[n - 1], n - 1, limits);
      PruningKeepsReached(pending, after, limits, n);
      RunExtends(states, Endings(n - 1), limits, Ending(n - 1), after);
      assert Endings(n) == Endings(n - 1) + [Ending(n - 1)];
      states := states + [after];
    }
  }

  lemma RunLength(states: seq<State>, actions: seq<Action>, limits: Limits)
    requires IsRun(states, actions, limits)
    ensures |states| == |actions| + 1
  {
  }

  lemma NothingEnded(limits: Limits) returns (states: seq<State>)
    ensures IsRun(states, Endings(0), limits) && Fresh(states[0]) && Reached(states[0], 0)
  {
    states := [State(map[], {}, {}, map[])];
  }

  /** One ending more than the history holds: the first key goes. */
  lemma FirstIsForgotten(pending: State, after: State, limits: Limits)
    requires Reached(pending, limits.cooldownHistory + 1) && 0 < limits.cooldownHistory && Pruned(pending, after, limits)
    ensures "" !in after.cooldowns && "new" !in after.tombstones && "new" !in after.candidates && after.contexts == {}
  {
    hide Pruned;
    assert !Named("new", limits.cooldownHistory + 1) by { assert Name(3)[0] == 'x'; }
    PrunedSize(pending, after, limits);
    PrunedTombstones(pending, after, limits);
    var key := SomeKeyGoes(pending.cooldowns, after.cooldowns);
    PruningDropsTheOldest(pending, after, limits, key);
    PruningDropsTheOldest(pending, after, limits, "");
    assert key != "" ==> EndTime(|key|) == 1;
  }

  lemma SomeKeyGoes(before: map<string, int>, after: map<string, int>) returns (key: string)
    requires |after| < |before|
    ensures key in before && key !in after
  {
    SubsetIsSmaller(before.Keys, after.Keys);
    assert |before.Keys| == |before| && |after.Keys| == |after|;
    key :| key in before.Keys && key !in after.Keys;
  }

  lemma PrunedTombstones(before: State, after: State, limits: Limits)
    requires Pruned(before, after, limits)
    ensures after.tombstones == before.tombstones && after.candidates.Keys <= before.candidates.Keys && after.contexts <= before.contexts
  {
    hide IsOverflow, TerminalItems, CooldownItems;
  }

  lemma FirstIsCooling(s: State, n: nat)
    requires Reached(s, n) && n > 0
    ensures "" in s.cooldowns && s.cooldowns[""] == 0
  {
    assert Name(0) == "";
    assert Named("", n);
  }

  /** Later steps do not change what happened before. */
  lemma {:induction false} LastTerminalLocal(a: seq<State>, x: seq<Action>, b: seq<State>, y: seq<Action>, limits: Limits, key: string, n: nat)
    requires |a| == |x| + 1 && |b| == |y| + 1 && n <= |x| && a <= b && x <= y
    ensures LastTerminal(a, x, limits, key, n) == LastTerminal(b, y, limits, key, n)
  {
    hide Buries, Burial;
    if n > 0 { LastTerminalLocal(a, x, b, y, limits, key, n - 1); }
  }

  /** Whatever the size of the history, there is a run in which the first key is forgotten and a new candidate with
      that key becomes active one second after its last one ended. */
  lemma CooldownsAreForgotten(limits: Limits) returns (states: seq<State>, actions: seq<Action>)
    requires limits.cooldownHistory > 0 && limits.cooldown > 1
    ensures IsRun(states, actions, limits) && Fresh(states[0]) && ClockNeverGoesBack(actions)
    ensures |actions| == limits.cooldownHistory + 2 && actions[|actions| - 1] == Discover(Candidate("new", "", WatchNear, 1), 1)
    ensures LastTerminal(states, actions, limits, "", |actions| - 1) == Some(0)
    ensures "new" !in states[|actions| - 1].contexts && "new" in states[|actions|].contexts
  {
    hide Pruned, Reached, Acts, IsRun, Ending;
    var n := limits.cooldownHistory;
    var c := Candidate("new", "", WatchNear, 1);
    var ended := EndMany(limits, n);
    RunLength(ended, Endings(n), limits);
    assert "" in ended[n].cooldowns && ended[n].cooldowns[""] == 0 by { FirstIsCooling(ended[n], n); }
    CooldownsAreLastTerminals(ended, Endings(n), limits, "", n);
    var pending, after := EndOne(ended[n], n, limits);
    FirstIsForgotten(pending, after, limits);
    var final := after.(candidates := after.candidates["new" := c], contexts := after.contexts + {"new"});
    RunExtends(ended, Endings(n), limits, Ending(n), after);
    assert Acts(after, Discover(c, 1), limits, final) by { NewIsAdmitted(after, c, limits, final); }
    states, actions := ended + [after], Endings(n) + [Ending(n)];
    RunExtends(states, actions, limits, Discover(c, 1), final);
    states, actions := states + [final], actions + [Discover(c, 1)];
    LastTerminalLocal(ended, Endings(n), states, actions, limits, "", n);
    EndingsBuryTheirOwn(ended[n], n, limits);
    EndingsInOrder(n, actions);
  }

  lemma NewIsAdmitted(s: State, c: Candidate, limits: Limits, after: State)
    requires c.id !in s.tombstones && c.id !in s.candidates && c.key !in s.cooldowns && !Terminal(c.lifecycle)
    requires after == s.(candidates := s.candidates[c.id := c], contexts := s.contexts + {c.id})
    ensures Acts(s, Discover(c, c.evaluatedAt), limits, after)
  {
  }

  lemma EndingsBuryTheirOwn(s: State, n: nat, limits: Limits)
    requires n > 0 && Burial(s, Ending(n), limits) == Some(Ending(n).candidate)
    ensures !Buries(s, Ending(n), limits, "")
  {
    hide Burial;
  }

  lemma EndingsInOrder(n: nat, actions: seq<Action>)
    requires actions == Endings(n) + [Ending(n)] + [Discover(Candidate("new", "", WatchNear, 1), 1)]
    ensures ClockNeverGoesBack(actions)
  {
    forall i, j | 0 <= i < j < |actions| ensures EvaluatedAt(actions[i]) <= EvaluatedAt(actions[j]) {
      assert actions[i] == Ending(i);
    }
  }
}
