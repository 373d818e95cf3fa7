/** What one synchronisation makes of every record, in fields: the store mirrors the scanner, and what the scanner no longer
    shows is invalidated (app/services/signals.py:147-310). */
module SignalRules {
  import opened Trading
  import opened SignalStore
  import opened SignalService

  predicate Living(l: Lifecycle) { l == Active || l == Watch }

  /** A new record of a candidate. */
  predicate Opened(r: Record, c: Candidate) {
    && r.candidate == c.id && r.version == 1 && r.lifecycle == c.lifecycle && r.updatedAt == c.evaluatedAt
    && r.values == c.values && r.auditCodes == c.auditCodes
    && r.terminalAt == (if Living(c.lifecycle) then None else Some(c.evaluatedAt))
    && |r.history| == 1 && r.history[0] == Transition(1, c.lifecycle, c.evaluatedAt, c.reason)
  }

  /** The record after another sighting of its candidate: untouched when nothing about it changed, else the candidate's
      values under the next version, with a history line exactly when the lifecycle moved. */
  predicate Refreshed(before: Record, after: Record, c: Candidate) {
    if before.lifecycle == c.lifecycle && before.values == c.values && before.auditCodes == c.auditCodes then after == before
    else
      && after.candidate == before.candidate && after.version == before.version + 1 && after.updatedAt == c.evaluatedAt
      && after.lifecycle == c.lifecycle && after.values == c.values && after.auditCodes == c.auditCodes
      && after.history == before.history + (if before.lifecycle == c.lifecycle then [] else [Transition(|before.history| + 1, c.lifecycle, c.evaluatedAt, c.reason)])
      && after.terminalAt == (if before.lifecycle == c.lifecycle || Living(c.lifecycle) then before.terminalAt else Some(c.evaluatedAt))
  }

  /** The record after the service itself ended it: its values stay, and the reason is in its audit codes once. */
  predicate EndedAs(before: Record, after: Record, lifecycle: Lifecycle, at: int, reason: string) {
    && after.candidate == before.candidate && after.version == before.version + 1 && after.lifecycle == lifecycle && after.updatedAt == at
    && after.terminalAt == Some(at) && after.values == before.values
    && after.auditCodes == (if reason in before.auditCodes then before.auditCodes else before.auditCodes + [reason])
    && after.history == before.history + [Transition(|before.history| + 1, lifecycle, at, reason)]
  }

  lemma EndsExactly(r: Record, lifecycle: Lifecycle, at: int, reason: string)
    requires Living(r.lifecycle) && !Living(lifecycle)
    ensures EndedAs(r, TransitionTo(r, lifecycle, at, reason), lifecycle, at, reason)
  {
  }

  /** What the sighting of a candidate makes of the record stored under its id. */
  predicate Sighted(before: Option<Record>, after: Record, c: Candidate) {
    if before.None? then Opened(after, c)
    else if !Living(before.value.lifecycle) && before.value.lifecycle != c.lifecycle then after == before.value
    else Refreshed(before.value, after, c)
  }

  function RecordOf(s: Store, id: string): Option<Record> { if id in s.records then Some(s.records[id]) else None }

  /** Accepting a candidate changes its own record only. */
  lemma AcceptExactly(s: Store, c: Candidate)
    ensures var after := Accept(s, c);
      && after.records.Keys == s.records.Keys + {c.id} && Sighted(RecordOf(s, c.id), after.records[c.id], c)
      && (forall id :: id in s.records && id != c.id ==> after.records[id] == s.records[id])
      && (c.id !in s.records ==> after.candidateBySignal == s.candidateBySignal["astraforge-signal-v1:" + c.id := c.id])
      && (c.id in s.records ==> after.candidateBySignal == s.candidateBySignal)
  {
    hide SignalId;
    assert SignalId(c.id) == "astraforge-signal-v1:" + c.id by { SignalText(c.id); }
  }

  lemma SignalText(id: string)
    ensures SignalId(id) == "astraforge-signal-v1:" + id
  {
  }

  ghost predicate ShownIds(candidates: seq<Candidate>, id: string) {
    exists i :: 0 <= i < |candidates| && candidates[i].id == id
  }

  ghost predicate DistinctIds(candidates: seq<Candidate>) {
    forall i, j :: 0 <= i < j < |candidates| ==> candidates[i].id != candidates[j].id
  }

  /** The records after accepting a list in which every candidate appears once. */
  ghost predicate Mirrored(before: Store, after: Store, candidates: seq<Candidate>) {
    && (forall id :: id in after.records <==> id in before.records || ShownIds(candidates, id))
    && (forall i :: 0 <= i < |candidates| ==> candidates[i].id in after.records && Sighted(RecordOf(before, candidates[i].id), after.records[candidates[i].id], candidates[i]))
    && (forall id :: id in before.records && !ShownIds(candidates, id) ==> after.records[id] == before.records[id])
  }

  lemma {:induction false} AcceptAllMirrors(s: Store, candidates: seq<Candidate>)
    requires DistinctIds(candidates)
    ensures Mirrored(s, AcceptAll(s, candidates), candidates)
  {
    hide Accept, Sighted, Mirrored, RecordOf;
    if candidates == [] {
      NothingMirrored(s);
    } else {
      var init, last := candidates[..|candidates| - 1], candidates[|candidates| - 1];
      AcceptAllMirrors(s, init);
      AcceptExactly(AcceptAll(s, init), last);
      OneMoreMirrored(s, AcceptAll(s, init), AcceptAll(s, candidates), candidates);
    }
  }

  lemma NothingMirrored(s: Store)
    ensures Mirrored(s, s, [])
  {
  }

  lemma OneMoreMirrored(s: Store, before: Store, after: Store, candidates: seq<Candidate>)
    requires candidates != [] && DistinctIds(candidates)
    requires Mirrored(s, before, candidates[..|candidates| - 1])
    requires var last := candidates[|candidates| - 1];
      && after.records.Keys == before.records.Keys + {last.id} && Sighted(RecordOf(before, last.id), after.records[last.id], last)
      && (forall id :: id in before.records && id != last.id ==> after.records[id] == before.records[id])
    ensures Mirrored(s, after, candidates)
  {
    hide Sighted;
    var init, last := candidates[..|candidates| - 1], candidates[|candidates| - 1];
    assert !ShownIds(init, last.id);
    OneMoreShown(candidates);
    hide ShownIds;
    assert RecordOf(before, last.id) == RecordOf(s, last.id);
    forall i | 0 <= i < |candidates|
      ensures candidates[i].id in after.records && Sighted(RecordOf(s, candidates[i].id), after.records[candidates[i].id], candidates[i])
    {
      if i < |init| { assert init[i] == candidates[i]; }
    }
  }

  lemma OneMoreShown(candidates: seq<Candidate>)
    requires candidates != []
    ensures var init, last := candidates[..|candidates| - 1], candidates[|candidates| - 1];
      forall id :: ShownIds(candidates, id) <==> ShownIds(init, id) || id == last.id
  {
    var init, last := candidates[..|candidates| - 1], candidates[|candidates| - 1];
    forall id ensures ShownIds(candidates, id) <==> ShownIds(init, id) || id == last.id {
      if ShownIds(init, id) {
        var i :| 0 <= i < |init| && init[i].id == id;
        assert candidates[i].id == id;
      }
      if i :| 0 <= i < |candidates| && candidates[i].id == id {
        if i < |init| { assert init[i].id == id; }
      }
      assert candidates[|candidates| - 1].id == last.id;
    }
  }

  /** Over a whole synchronisation before pruning: every shown candidate has its record as sighted; a record that is not shown
      is invalidated exactly when it is living and a completed scan is not older than it, and is otherwise untouched. */
  lemma SynchronisationMirrorsTheScanner(s: Store, candidates: seq<Candidate>, run: Option<int>)
    requires DistinctIds(candidates) && forall id :: id in s.records ==> s.records[id].candidate == id
    ensures var after := Gathered(s, candidates, run);
      && (forall id :: id in after.records <==> id in s.records || ShownIds(candidates, id))
      && (forall i :: 0 <= i < |candidates| ==>
            candidates[i].id in after.records && Sighted(RecordOf(s, candidates[i].id), after.records[candidates[i].id], candidates[i]))
      && (forall id :: id in s.records && !ShownIds(candidates, id) ==>
            if run.Some? && Living(s.records[id].lifecycle) && s.records[id].updatedAt <= run.value
            then EndedAs(s.records[id], after.records[id], Invalidated, run.value, "SOURCE_CANDIDATE_MISSING")
            else after.records[id] == s.records[id])
  {
    hide AcceptAll, Opened, Refreshed, EndedAs, TransitionTo;
    AcceptAllMirrors(s, candidates);
    var t := AcceptAll(s, candidates);
    SeenAreShown(candidates);
    hide SeenIn;
    if run.Some? {
      var after := Gathered(s, candidates, run);
      forall i | 0 <= i < |candidates| ensures after.records[candidates[i].id] == t.records[candidates[i].id] {
        SightedIsOf(RecordOf(s, candidates[i].id), t.records[candidates[i].id], candidates[i]);
        assert candidates[i].id in SeenIn(candidates);
      }
      forall id | id in s.records && !ShownIds(candidates, id) && Living(s.records[id].lifecycle)
        ensures EndedAs(s.records[id], TransitionTo(s.records[id], Invalidated, run.value, "SOURCE_CANDIDATE_MISSING"), Invalidated, run.value, "SOURCE_CANDIDATE_MISSING")
      {
        EndsExactly(s.records[id], Invalidated, run.value, "SOURCE_CANDIDATE_MISSING");
      }
    }
  }

  lemma SightedIsOf(before: Option<Record>, after: Record, c: Candidate)
    requires Sighted(before, after, c) && (before.Some? ==> before.value.candidate == c.id)
    ensures after.candidate == c.id
  {
  }

  lemma SeenAreShown(candidates: seq<Candidate>)
    ensures forall id :: id in SeenIn(candidates) <==> ShownIds(candidates, id)
  {
    forall id ensures id in SeenIn(candidates) <==> ShownIds(candidates, id) {
      if i :| 0 <= i < |candidates| && candidates[i].id == id { assert candidates[i].id in SeenIn(candidates); }
    }
  }

  /** A risk block ends the living record of its signal at the given time, or at the record's own, and touches nothing else. */
  lemma BlockEndsTheLiving(s: Store, signal: string, reason: string, at: Option<int>)
    requires Sound(s)
    ensures var after := Blocked(s, signal, reason, at);
      && after.candidateBySignal == s.candidateBySignal && after.records.Keys == s.records.Keys
      && forall id :: id in s.records ==>
           if signal in s.candidateBySignal && s.candidateBySignal[signal] == id && Living(s.records[id].lifecycle)
           then EndedAs(s.records[id], after.records[id], RiskBlocked, if at.Some? then at.value else s.records[id].updatedAt, reason)
           else after.records[id] == s.records[id]
  {
    hide SoundRecord, EndedAs, TransitionTo;
    if signal in s.candidateBySignal && Living(s.records[s.candidateBySignal[signal]].lifecycle) {
      var r := s.records[s.candidateBySignal[signal]];
      EndsExactly(r, RiskBlocked, if at.Some? then at.value else r.updatedAt, reason);
    }
  }
}
