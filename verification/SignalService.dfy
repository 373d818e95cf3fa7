/** The signal service's loops over its dictionaries, proved against the store's definitions, and what every run of
    synchronisations and risk blocks keeps. */
module SignalService {
  import opened Trading
  import opened Retention
  import opened SignalStore

  // ---------------------------------------------------------------- pruning by retention order

  function ItemOf(r: Record): Item { Item(r.candidate, PruneRank(r.lifecycle), RetentionTime(r), SignalId(r.candidate)) }

  function ItemsOf(records: map<string, Record>): (items: map<string, Item>)
    ensures items.Keys == records.Keys && forall id :: id in records ==> items[id] == ItemOf(records[id])
  {
    map id | id in records :: ItemOf(records[id])
  }

  function SignalsOf(candidates: seq<string>): set<string> { set id | id in candidates :: SignalId(id) }

  ghost predicate KeyedByCandidate(records: map<string, Record>) {
    forall id :: id in records ==> records[id].candidate == id
  }

  lemma SignalsGrow(candidates: seq<string>, i: nat)
    requires i < |candidates|
    ensures SignalsOf(candidates[..i + 1]) == SignalsOf(candidates[..i]) + {SignalId(candidates[i])}
  {
    hide SignalId;
    assert candidates[..i + 1] == candidates[..i] + [candidates[i]];
    assert candidates[i] in candidates[..i + 1];
  }

  /** Popping the overflow from both dictionaries is what pruning promises. */
  lemma PoppingIsPruning(before: Store, gone: seq<string>, limit: nat)
    requires IsOverflow(ItemsOf(before.records), gone, limit)
    ensures Pruned(before, Store(before.records - Members(gone), before.candidateBySignal - SignalsOf(gone)), limit)
  {
    hide IsOverflow, PrunedBefore, GoneSignal, Members, SignalsOf;
    var after := Store(before.records - Members(gone), before.candidateBySignal - SignalsOf(gone));
    PoppedRecords(before.records, gone, limit);
    forall signal: string ensures (signal in SignalsOf(gone)) == GoneSignal(before, after, signal) {
      SignalIsGone(before, after, gone, signal);
    }
  }

  lemma PoppedRecords(records: map<string, Record>, gone: seq<string>, limit: nat)
    requires IsOverflow(ItemsOf(records), gone, limit)
    ensures Members(gone) <= records.Keys && (records - Members(gone)).Keys == records.Keys - Members(gone)
    ensures |records - Members(gone)| == (if |records| > limit then limit else |records|)
    ensures forall dropped, kept :: dropped in records && dropped in Members(gone) && kept in records - Members(gone) ==>
              !PrunedBefore(records[kept], records[dropped])
  {
    hide Older, ItemOf, PrunedBefore, Distinct;
    assert |ItemsOf(records)| == |records| by { assert ItemsOf(records).Keys == records.Keys; }
    SizeAfter(records.Keys, gone);
    assert (records - Members(gone)).Keys == records.Keys - Members(gone);
    forall dropped, kept | dropped in records && dropped in Members(gone) && kept in records - Members(gone)
      ensures !PrunedBefore(records[kept], records[dropped])
    {
      SameOrder(records[kept], records[dropped]);
    }
  }

  lemma SameOrder(a: Record, b: Record)
    ensures PrunedBefore(a, b) == Older(ItemOf(a), ItemOf(b))
  {
    hide TextLess, SignalId;
  }

  lemma SignalIsGone(before: Store, after: Store, gone: seq<string>, signal: string)
    requires after.records.Keys == before.records.Keys - Members(gone) && Members(gone) <= before.records.Keys
    ensures signal in SignalsOf(gone) <==> GoneSignal(before, after, signal)
  {
    hide SignalId;
    if signal in SignalsOf(gone) {
      var id :| id in gone && SignalId(id) == signal;
      assert id in Members(gone);
    }
  }

  class SignalService {
    const limit: nat
    var records: map<string, Record>
    var candidateBySignal: map<string, string>

    function Contents(): Store
      reads this
    {
      Store(records, candidateBySignal)
    }

    constructor (recordLimit: nat)
      requires 1 <= recordLimit
      ensures limit == recordLimit && Contents() == Store(map[], map[])
    {
      limit, records, candidateBySignal := recordLimit, map[], map[];
    }

    /** `_prune_records`: pop the overflow from both dictionaries. */
    method PruneRecords()
      requires KeyedByCandidate(records)
      modifies this`records, this`candidateBySignal
      ensures Pruned(old(Contents()), Contents(), limit)
    {
      hide Pruned, IsOverflow, ItemOf, Members, SignalsOf, SignalId;
      ghost var before := Contents();
      assert Keyed(ItemsOf(records)) by { ItemsAreKeyed(records); }
      var gone := Overflow(ItemsOf(records), limit);
      NothingPopped();
      for i := 0 to |gone|
        invariant records == before.records - Members(gone[..i])
        invariant candidateBySignal == before.candidateBySignal - SignalsOf(gone[..i])
      {
        MembersGrow(gone, i);
        SignalsGrow(gone, i);
        records := records - {gone[i]};
        candidateBySignal := candidateBySignal - {SignalId(gone[i])};
      }
      assert gone[..|gone|] == gone;
      PoppingIsPruning(before, gone, limit);
    }

    method AcceptCandidates(candidates: seq<Candidate>) returns (seen: set<string>)
      modifies this`records, this`candidateBySignal
      ensures Contents() == AcceptAll(old(Contents()), candidates) && seen == SeenIn(candidates)
    {
      hide UpdateRecord, SignalId, SeenIn;
      seen := {};
      assert SeenIn(candidates[..0]) == {} by { NothingSeen(candidates); }
      for i := 0 to |candidates|
        invariant Contents() == AcceptAll(old(Contents()), candidates[..i])
        invariant seen == SeenIn(candidates[..i])
      {
        var c := candidates[i];
        SeenGrows(candidates, i);
        assert candidates[..i + 1][..i] == candidates[..i];
        seen := seen + {c.id};
        if c.id !in records {
          records := records[c.id := Created(c)];
          candidateBySignal := candidateBySignal[SignalId(c.id) := c.id];
        } else if !Terminal(records[c.id].lifecycle) || c.lifecycle == records[c.id].lifecycle {
          records := records[c.id := UpdateRecord(records[c.id], c)];
        }
      }
      assert candidates[..|candidates|] == candidates;
    }

    method InvalidateUnseen(seen: set<string>, run: int)
      modifies this`records
      ensures Contents() == InvalidateMissing(old(Contents()), seen, Some(run))
    {
      hide Missed;
      var pending := records.Keys;
      while pending != {}
        invariant pending <= old(records).Keys && records.Keys == old(records).Keys
        invariant forall id :: id in records ==> records[id] == if id in pending then old(records)[id] else Missed(old(records)[id], seen, run)
        decreases |pending|
      {
        var id :| id in pending;
        records := records[id := Missed(records[id], seen, run)];
        pending := pending - {id};
      }
    }

    /** `_synchronize`: accept every candidate, invalidate what the last completed scan missed, prune. */
    method Synchronize(candidates: seq<Candidate>, run: Option<int>)
      requires Sound(Contents())
      modifies this`records, this`candidateBySignal
      ensures Pruned(Gathered(old(Contents()), candidates, run), Contents(), limit)
    {
      hide Pruned, AcceptAll, SeenIn, SoundRecord, SignalId;
      var seen := AcceptCandidates(candidates);
      if run.Some? { InvalidateUnseen(seen, run.value); }
      GatheredKeepsSound(old(Contents()), candidates, run);
      PruneRecords();
    }

    /** `mark_risk_blocked` after its synchronisation: only a live record is blocked. */
    method MarkRiskBlocked(signal: string, reason: string, at: Option<int>) returns (result: Option<Record>)
      requires Sound(Contents())
      modifies this`records
      ensures Contents() == Blocked(old(Contents()), signal, reason, at)
      ensures result.Some? <==> signal in candidateBySignal
      ensures result.Some? ==> result.value == records[candidateBySignal[signal]]
      ensures result.Some? ==> Terminal(result.value.lifecycle)
    {
      if signal !in candidateBySignal { return None; }
      var id := candidateBySignal[signal];
      if !Terminal(records[id].lifecycle) {
        records := records[id := TransitionTo(records[id], RiskBlocked, if at.Some? then at.value else records[id].updatedAt, reason)];
      }
      return Some(records[id]);
    }
  }

  lemma ItemsAreKeyed(records: map<string, Record>)
    requires KeyedByCandidate(records)
    ensures Keyed(ItemsOf(records))
  {
  }

  lemma NothingPopped()
    ensures Members([]) == {} && SignalsOf([]) == {}
  {
  }

  lemma NothingSeen(candidates: seq<Candidate>)
    ensures SeenIn(candidates[..0]) == {}
  {
  }

  lemma SeenGrows(candidates: seq<Candidate>, i: nat)
    requires i < |candidates|
    ensures SeenIn(candidates[..i + 1]) == SeenIn(candidates[..i]) + {candidates[i].id}
  {
    forall x | x in SeenIn(candidates[..i]) + {candidates[i].id} ensures x in SeenIn(candidates[..i + 1]) {
      if x == candidates[i].id {
        assert candidates[..i + 1][i].id == x;
      } else {
        var j :| 0 <= j < i && candidates[..i][j].id == x;
        assert candidates[..i + 1][j].id == x;
      }
    }
  }

  function Blocked(s: Store, signal: string, reason: string, at: Option<int>): Store {
    if signal !in s.candidateBySignal || s.candidateBySignal[signal] !in s.records then s
    else
      var id := s.candidateBySignal[signal];
      var r := s.records[id];
      if Terminal(r.lifecycle) then s
      else s.(records := s.records[id := TransitionTo(r, RiskBlocked, if at.Some? then at.value else r.updatedAt, reason)])
  }

  // ---------------------------------------------------------------- runs

  /** A service call: every public read synchronises; a risk block synchronises and then marks. */
  datatype Call = Call(candidates: seq<Candidate>, run: Option<int>, block: Option<(string, string, Option<int>)>)

  ghost predicate Serves(before: Store, call: Call, after: Store, limit: nat) {
    exists synced :: Pruned(Gathered(before, call.candidates, call.run), synced, limit)
      && after == if call.block.None? then synced else Blocked(synced, call.block.value.0, call.block.value.1, call.block.value.2)
  }

  /** `stores[i]` is the store after `i` calls. */
  ghost predicate IsRun(stores: seq<Store>, calls: seq<Call>, limit: nat) {
    && |stores| == |calls| + 1
    && (forall i :: 0 <= i < |calls| ==> Serves(stores[i], calls[i], stores[i + 1], limit))
  }

  lemma BlockKeepsSound(s: Store, signal: string, reason: string, at: Option<int>)
    requires Sound(s)
    ensures Sound(Blocked(s, signal, reason, at))
    ensures |Blocked(s, signal, reason, at).records| == |s.records|
  {
    hide SoundRecord, TransitionTo, SignalId;
    if signal in s.candidateBySignal && !Terminal(s.records[s.candidateBySignal[signal]].lifecycle) {
      var r := s.records[s.candidateBySignal[signal]];
      var time := if at.Some? then at.value else r.updatedAt;
      TransitionKeepsSound(r, RiskBlocked, time, reason);
      TransitionKeepsCandidate(r, RiskBlocked, time, reason);
      assert Blocked(s, signal, reason, at).records.Keys == s.records.Keys;
    }
  }

  lemma TransitionKeepsCandidate(r: Record, lifecycle: Lifecycle, at: int, reason: string)
    ensures TransitionTo(r, lifecycle, at, reason).candidate == r.candidate
  {
  }

  lemma CallKeepsSound(before: Store, call: Call, after: Store, limit: nat)
    requires Sound(before) && Serves(before, call, after, limit)
    ensures Sound(after) && |after.records| <= limit
  {
    hide Sound, Pruned, Gathered, Blocked;
    var synced :| Pruned(Gathered(before, call.candidates, call.run), synced, limit)
      && after == if call.block.None? then synced else Blocked(synced, call.block.value.0, call.block.value.1, call.block.value.2);
    GatheredKeepsSound(before, call.candidates, call.run);
    PruneKeepsSound(Gathered(before, call.candidates, call.run), synced, limit);
    if call.block.Some? { BlockKeepsSound(synced, call.block.value.0, call.block.value.1, call.block.value.2); }
  }

  /** After every run: the two maps are inverse, every record is sound, and the size is within the limit. */
  lemma {:induction false} RunsKeepSound(stores: seq<Store>, calls: seq<Call>, limit: nat, n: nat)
    requires IsRun(stores, calls, limit) && stores[0] == Store(map[], map[]) && n <= |calls|
    ensures Sound(stores[n]) && |stores[n].records| <= limit
  {
    hide Serves;
    if n > 0 {
      RunsKeepSound(stores, calls, limit, n - 1);
      hide Sound;
      CallKeepsSound(stores[n - 1], calls[n - 1], stores[n], limit);
    }
  }

  // ---------------------------------------------------------------- terminal records

  lemma {:induction false} AcceptAllKeepsTerminal(s: Store, candidates: seq<Candidate>, id: string)
    requires id in s.records && Terminal(s.records[id].lifecycle)
    ensures var t := AcceptAll(s, candidates); id in t.records && SameEnd(s.records[id], t.records[id])
  {
    if candidates != [] {
      AcceptAllKeepsTerminal(s, candidates[..|candidates| - 1], id);
    }
  }

  /** Same lifecycle, history and terminal time. */
  predicate SameEnd(a: Record, b: Record) {
    a.lifecycle == b.lifecycle && a.history == b.history && a.terminalAt == b.terminalAt
  }

  /** A terminal record that is still retained after a call has the same lifecycle, history and terminal time. */
  lemma TerminalSurvivesCall(before: Store, call: Call, after: Store, limit: nat, id: string)
    requires Sound(before) && Serves(before, call, after, limit)
    requires id in before.records && Terminal(before.records[id].lifecycle) && id in after.records
    ensures SameEnd(before.records[id], after.records[id])
  {
    hide Sound, Pruned, Gathered, Blocked;
    var synced :| Pruned(Gathered(before, call.candidates, call.run), synced, limit)
      && after == if call.block.None? then synced else Blocked(synced, call.block.value.0, call.block.value.1, call.block.value.2);
    GatheringKeepsTerminal(before, call.candidates, call.run, id);
    if call.block.Some? { BlockingKeepsKeys(synced, call, id); }
    PrunedKeeps(Gathered(before, call.candidates, call.run), synced, limit, id);
  }

  lemma GatheringKeepsTerminal(s: Store, candidates: seq<Candidate>, run: Option<int>, id: string)
    requires id in s.records && Terminal(s.records[id].lifecycle)
    ensures var t := Gathered(s, candidates, run); id in t.records && SameEnd(s.records[id], t.records[id])
  {
    hide AcceptAll, TransitionTo, SeenIn;
    AcceptAllKeepsTerminal(s, candidates, id);
  }

  lemma PrunedKeeps(before: Store, after: Store, limit: nat, id: string)
    requires Pruned(before, after, limit) && id in after.records
    ensures id in before.records && after.records[id] == before.records[id]
  {
    hide PrunedBefore, GoneSignal;
  }

  lemma BlockingKeepsKeys(s: Store, call: Call, id: string)
    requires call.block.Some?
    ensures var t := Blocked(s, call.block.value.0, call.block.value.1, call.block.value.2);
      && t.records.Keys == s.records.Keys
      && (id in s.records && Terminal(s.records[id].lifecycle) ==> t.records[id] == s.records[id])
  {
  }
}
