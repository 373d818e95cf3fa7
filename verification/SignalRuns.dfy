/** How long a risk block lasts: what runs of app/services/signals.py do to a terminal record, and exactly when bounded
    retention lets it come back to life. */
module SignalRuns {
  import opened Trading
  import opened Retention
  import opened SignalStore
  import opened SignalService

  predicate Live(s: Store, id: string) { id in s.records && !Terminal(s.records[id].lifecycle) }

  // ---------------------------------------------------------------- a retained record

  /** A terminal record that is retained throughout keeps its lifecycle, its history and its terminal time. */
  lemma {:induction false} RetainedTerminalNeverChanges(stores: seq<Store>, calls: seq<Call>, limit: nat, m: nat, n: nat, id: string)
    requires IsRun(stores, calls, limit) && stores[0] == Store(map[], map[]) && m <= n <= |calls|
    requires id in stores[m].records && Terminal(stores[m].records[id].lifecycle)
    requires forall i :: m <= i <= n ==> id in stores[i].records
    ensures SameEnd(stores[m].records[id], stores[n].records[id])
    decreases n - m
  {
    hide Serves, Terminal;
    if m < n {
      RetainedTerminalNeverChanges(stores, calls, limit, m, n - 1, id);
      RunsKeepSound(stores, calls, limit, n - 1);
      assert Serves(stores[n - 1], calls[n - 1], stores[n], limit);
      TerminalSurvivesCall(stores[n - 1], calls[n - 1], stores[n], limit, id);
    }
  }

  // ---------------------------------------------------------------- a record that was dropped

  predicate Shown(candidates: seq<Candidate>, id: string) {
    exists i :: 0 <= i < |candidates| && candidates[i].id == id
  }

  predicate ShownLive(candidates: seq<Candidate>, id: string) {
    && Shown(candidates, id)
    && (forall i :: 0 <= i < |candidates| && candidates[i].id == id ==> !Terminal(candidates[i].lifecycle))
  }

  /** The call shows the candidate as live and does not block its signal. */
  predicate ShowsLive(call: Call, id: string) {
    && ShownLive(call.candidates, id)
    && (call.block.Some? ==> call.block.value.0 != SignalId(id))
  }

  lemma {:induction false} AcceptedLive(s: Store, candidates: seq<Candidate>, id: string)
    requires id !in s.records
    ensures var t := AcceptAll(s, candidates);
      && (id in t.records <==> Shown(candidates, id))
      && (Live(t, id) <==> ShownLive(candidates, id))
  {
    hide SignalId, Terminal;
    if candidates != [] {
      var init, last := candidates[..|candidates| - 1], candidates[|candidates| - 1];
      AcceptedLive(s, init, id);
      LastShown(candidates, id);
    }
  }

  lemma LastShown(candidates: seq<Candidate>, id: string)
    requires candidates != []
    ensures var init, last := candidates[..|candidates| - 1], candidates[|candidates| - 1];
      && (Shown(candidates, id) <==> Shown(init, id) || last.id == id)
      && (ShownLive(candidates, id) <==> if last.id != id then ShownLive(init, id) else !Terminal(last.lifecycle) && (Shown(init, id) ==> ShownLive(init, id)))
  {
  }

  lemma GatheredLive(s: Store, candidates: seq<Candidate>, run: Option<int>, id: string)
    requires Sound(s) && id !in s.records
    ensures var g := Gathered(s, candidates, run); id in g.records ==> (Live(g, id) <==> ShownLive(candidates, id))
  {
    hide AcceptAll, SoundRecord, Terminal, ShownLive, SignalId, TransitionTo;
    var t := AcceptAll(s, candidates);
    AcceptAllKeepsSound(s, candidates);
    AcceptedLive(s, candidates, id);
  }

  lemma BlockedLive(s: Store, signal: string, reason: string, at: Option<int>, id: string)
    requires Sound(s)
    ensures var t := Blocked(s, signal, reason, at); t.records.Keys == s.records.Keys && (Live(t, id) <==> Live(s, id) && signal != SignalId(id))
  {
    hide SoundRecord, SignalId;
  }

  /** The only way for a record that is not live to become live in one call. */
  lemma CallRevives(before: Store, call: Call, after: Store, limit: nat, id: string)
    requires Sound(before) && Serves(before, call, after, limit) && !Live(before, id)
    ensures Live(after, id) <==> id !in before.records && id in after.records && ShowsLive(call, id)
  {
    hide Sound, Pruned, Gathered, Blocked, ShownLive, Terminal;
    if id in before.records {
      if id in after.records { TerminalSurvivesCall(before, call, after, limit, id); }
    } else {
      var synced :| Pruned(Gathered(before, call.candidates, call.run), synced, limit)
        && after == if call.block.None? then synced else Blocked(synced, call.block.value.0, call.block.value.1, call.block.value.2);
      GatheredKeepsSound(before, call.candidates, call.run);
      PruneKeepsSound(Gathered(before, call.candidates, call.run), synced, limit);
      GatheredLive(before, call.candidates, call.run, id);
      if call.block.Some? { BlockedLive(synced, call.block.value.0, call.block.value.1, call.block.value.2, id); }
      if id in synced.records { PrunedKeeps(Gathered(before, call.candidates, call.run), synced, limit, id); }
    }
  }

  // ---------------------------------------------------------------- runs

  /** Call `j` brings the candidate back: its record is gone, the call shows it as live and retention keeps it. */
  predicate Revives(stores: seq<Store>, calls: seq<Call>, j: nat, id: string)
    requires j < |calls| && |stores| == |calls| + 1
  {
    id !in stores[j].records && id in stores[j + 1].records && ShowsLive(calls[j], id)
  }

  lemma {:induction false} NotLiveUnlessRevived(stores: seq<Store>, calls: seq<Call>, limit: nat, m: nat, n: nat, id: string)
    requires IsRun(stores, calls, limit) && stores[0] == Store(map[], map[]) && m <= n <= |calls|
    requires !Live(stores[m], id)
    requires forall j :: m <= j < n ==> !Revives(stores, calls, j, id)
    ensures !Live(stores[n], id)
    decreases n - m
  {
    hide Serves, Live, ShowsLive;
    if m < n {
      NotLiveUnlessRevived(stores, calls, limit, m, n - 1, id);
      assert !Revives(stores, calls, n - 1, id);
      RunsKeepSound(stores, calls, limit, n - 1);
      CallRevives(stores[n - 1], calls[n - 1], stores[n], limit, id);
    }
  }

  /** A record that a risk block, or anything else, made terminal never becomes live again, if and only if no later call
      finds it dropped by retention, shows its candidate as live, leaves its signal unblocked and keeps the new record. */
  lemma TerminalStaysDeadExactlyUnlessRevived(stores: seq<Store>, calls: seq<Call>, limit: nat, m: nat, n: nat, id: string)
    requires IsRun(stores, calls, limit) && stores[0] == Store(map[], map[]) && m <= n <= |calls|
    requires id in stores[m].records && Terminal(stores[m].records[id].lifecycle)
    ensures (forall i :: m <= i <= n ==> !Live(stores[i], id)) <==> (forall j :: m <= j < n ==> !Revives(stores, calls, j, id))
  {
    hide Serves, ShowsLive;
    if forall j :: m <= j < n ==> !Revives(stores, calls, j, id) {
      forall i | m <= i <= n ensures !Live(stores[i], id) {
        NotLiveUnlessRevived(stores, calls, limit, m, i, id);
      }
    } else {
      var j :| m <= j < n && Revives(stores, calls, j, id);
      RevivalIsLive(stores, calls, limit, j, id);
    }
  }

  lemma RevivalIsLive(stores: seq<Store>, calls: seq<Call>, limit: nat, j: nat, id: string)
    requires IsRun(stores, calls, limit) && stores[0] == Store(map[], map[]) && j < |calls| && Revives(stores, calls, j, id)
    ensures Live(stores[j + 1], id)
  {
    hide Serves, ShowsLive;
    RunsKeepSound(stores, calls, limit, j);
    CallRevives(stores[j], calls[j], stores[j + 1], limit, id);
  }

  /** A blocked record is the same blocked record at every moment, if and only if it is retained at every moment. */
  lemma BlockLastsExactlyWhileRetained(stores: seq<Store>, calls: seq<Call>, limit: nat, m: nat, n: nat, id: string)
    requires IsRun(stores, calls, limit) && stores[0] == Store(map[], map[]) && m <= n <= |calls|
    requires id in stores[m].records && stores[m].records[id].lifecycle == RiskBlocked
    ensures (forall i :: m <= i <= n ==> id in stores[i].records && SameEnd(stores[m].records[id], stores[i].records[id]))
            <==> (forall i :: m <= i <= n ==> id in stores[i].records)
  {
    hide Serves, SameEnd;
    if forall i :: m <= i <= n ==> id in stores[i].records {
      forall i | m <= i <= n ensures SameEnd(stores[m].records[id], stores[i].records[id]) {
        RetainedTerminalNeverChanges(stores, calls, limit, m, i, id);
      }
    }
  }

  // ---------------------------------------------------------------- it does happen

  function Name(i: nat): (name: string)
    ensures |name| == i && name != "a"
  {
    var name := seq(i, _ => 'x');
    assert i == 1 ==> name[0] == 'x';
    name
  }

  /** A live candidate. */
  function Sighting(id: string, at: int): Candidate { Candidate(id, Active, at, 0, [], "") }

  function Crowd(n: nat): (candidates: seq<Candidate>)
    ensures |candidates| == n && forall i :: 0 <= i < n ==> candidates[i] == Sighting(Name(i), 0)
  {
    seq(n, i requires 0 <= i < n => Sighting(Name(i), 0))
  }

  /** Besides "a", exactly `n` records, all live since time 0. */
  ghost predicate Crowded(s: Store, n: nat) {
    && (forall id :: id in s.records && id != "a" ==> |id| < n && s.records[id].lifecycle == Active && RetentionTime(s.records[id]) == 0)
    && |s.records.Keys - {"a"}| == n
  }

  lemma SightingIsYoung(id: string, at: int)
    ensures var r := Created(Sighting(id, at)); r.lifecycle == Active && RetentionTime(r) == at && |r.history| == 1
  {
  }

  lemma CrowdGrows(s: Store, n: nat)
    requires Crowded(s, n) && "a" in s.records
    ensures var t := Accept(s, Sighting(Name(n), 0)); Crowded(t, n + 1) && "a" in t.records && t.records["a"] == s.records["a"]
  {
    hide SignalId, Created, RetentionTime, UpdateRecord, Name;
    var t := Accept(s, Sighting(Name(n), 0));
    SightingIsYoung(Name(n), 0);
    assert Name(n) !in s.records;
    assert t.records.Keys - {"a"} == (s.records.Keys - {"a"}) + {Name(n)};
  }

  lemma NobodyArrived(s: Store)
    requires s.records.Keys == {"a"}
    ensures Crowded(s, 0)
  {
    assert s.records.Keys - {"a"} == {};
  }

  lemma {:induction false} CrowdArrives(s: Store, n: nat)
    requires s.records.Keys == {"a"}
    ensures var t := AcceptAll(s, Crowd(n)); Crowded(t, n) && "a" in t.records && t.records["a"] == s.records["a"]
  {
    hide Accept, Crowded, Name;
    if n == 0 {
      NobodyArrived(s);
    } else {
      CrowdArrives(s, n - 1);
      assert Crowd(n)[..n - 1] == Crowd(n - 1);
      CrowdGrows(AcceptAll(s, Crowd(n - 1)), n - 1);
    }
  }

  lemma PruneExists(s: Store, limit: nat) returns (after: Store)
    requires Sound(s)
    ensures Pruned(s, after, limit)
  {
    hide Pruned, IsOverflow, SoundRecord;
    ItemsAreKeyed(s.records);
    var gone := OverflowExists(ItemsOf(s.records), limit);
    PoppingIsPruning(s, gone, limit);
    after := Store(s.records - Members(gone), s.candidateBySignal - SignalsOf(gone));
  }

  lemma SomeRecordGoes(before: Store, after: Store, limit: nat) returns (id: string)
    requires Pruned(before, after, limit) && |before.records| > limit
    ensures id in before.records && id !in after.records
  {
    hide PrunedBefore, GoneSignal;
    SubsetIsSmaller(before.records.Keys, after.records.Keys);
    assert |before.records.Keys| == |before.records| && |after.records.Keys| == |after.records|;
    id :| id in before.records.Keys && id !in after.records.Keys;
  }

  lemma CrowdSize(s: Store, n: nat)
    requires Crowded(s, n)
    ensures |s.records| == if "a" in s.records then n + 1 else n
  {
    assert |s.records.Keys| == |s.records|;
    if "a" in s.records { assert s.records.Keys == (s.records.Keys - {"a"}) + {"a"}; }
    else { assert s.records.Keys == s.records.Keys - {"a"}; }
  }

  /** A terminal record among more live ones than the limit allows is the one that goes. */
  lemma TerminalGoesFirst(before: Store, after: Store, limit: nat)
    requires Pruned(before, after, limit) && "a" in before.records && Terminal(before.records["a"].lifecycle) && Crowded(before, limit)
    ensures "a" !in after.records && Crowded(after, limit)
  {
    hide GoneSignal, SignalId, RetentionTime, TextLess;
    CrowdSize(before, limit);
    var gone := SomeRecordGoes(before, after, limit);
    assert gone != "a" ==> PrunedBefore(before.records["a"], before.records[gone]);
    hide PrunedBefore, Terminal;
    CrowdStays(before, after, limit);
  }

  lemma CrowdStays(before: Store, after: Store, limit: nat)
    requires Pruned(before, after, limit) && "a" in before.records && "a" !in after.records && Crowded(before, limit)
    ensures Crowded(after, limit)
  {
    hide GoneSignal, PrunedBefore, RetentionTime;
    CrowdSize(before, limit);
    assert after.records.Keys - {"a"} == after.records.Keys;
    assert |after.records.Keys| == |after.records|;
  }

  /** The youngest of live records stays. */
  lemma YoungestStays(before: Store, after: Store, limit: nat)
    requires Pruned(before, after, limit) && limit > 0 && Crowded(before, limit)
    requires "a" in before.records && before.records["a"].lifecycle == Active && RetentionTime(before.records["a"]) == 1
    ensures "a" in after.records && after.records["a"] == before.records["a"]
  {
    hide GoneSignal, SignalId, RetentionTime, TextLess;
    CrowdSize(before, limit);
    assert |after.records.Keys| == |after.records| == limit;
    var kept :| kept in after.records.Keys;
    assert kept != "a" ==> PrunedBefore(before.records[kept], before.records["a"]);
  }

  lemma CrowdIsYoung(s: Store, n: nat)
    requires Crowded(s, n) && "a" !in s.records
    ensures var t := Accept(s, Sighting("a", 1));
      && Crowded(t, n) && "a" in t.records
      && t.records["a"].lifecycle == Active && RetentionTime(t.records["a"]) == 1 && |t.records["a"].history| == 1
  {
    hide SignalId, Created, RetentionTime;
    SightingIsYoung("a", 1);
    assert Accept(s, Sighting("a", 1)).records.Keys - {"a"} == s.records.Keys - {"a"};
  }

  lemma AcceptsOne(s: Store, c: Candidate)
    ensures Gathered(s, [c], None) == Accept(s, c)
  {
    hide Accept, SeenIn;
    assert [c][..0] == [];
    assert AcceptAll(s, []) == s;
  }

  /** A store within its limit is pruned to itself. */
  lemma NothingToPrune(s: Store, limit: nat)
    requires |s.records| <= limit
    ensures Pruned(s, s, limit)
  {
    hide PrunedBefore, SignalId;
  }

  lemma BlockFirst(limit: nat) returns (store: Store)
    requires limit > 0
    ensures Serves(Store(map[], map[]), Call([Sighting("a", 1)], None, Some((SignalId("a"), "RISK", Some(1)))), store, limit)
    ensures store.records.Keys == {"a"} && store.records["a"].lifecycle == RiskBlocked
  {
    hide SignalId, Pruned, Gathered;
    var empty, c := Store(map[], map[]), Sighting("a", 1);
    var synced := Accept(empty, c);
    AcceptsOne(empty, c);
    NothingToPrune(synced, limit);
    store := Blocked(synced, SignalId("a"), "RISK", Some(1));
  }

  /** Whatever the limit: a signal is blocked, as many other live candidates as the store holds arrive and displace the
      blocked record, and the scanner, still showing the candidate, makes it a new live signal. */
  lemma BlocksAreForgotten(limit: nat) returns (stores: seq<Store>, calls: seq<Call>)
    requires limit > 0
    ensures IsRun(stores, calls, limit) && stores[0] == Store(map[], map[]) && |calls| == 3
    ensures calls[0] == Call([Sighting("a", 1)], None, Some((SignalId("a"), "RISK", Some(1))))
    ensures calls[2] == Call([Sighting("a", 1)], None, None)
    ensures "a" in stores[1].records && stores[1].records["a"].lifecycle == RiskBlocked
    ensures "a" !in stores[2].records
    ensures Live(stores[3], "a") && |stores[3].records["a"].history| == 1
  {
    hide Accept, Pruned, Sound, Crowded, SignalId, Crowd;
    var empty, a := Store(map[], map[]), Sighting("a", 1);
    assert Sound(empty) by { EmptyIsSound(); }
    var s1 := BlockFirst(limit);
    calls := [Call([a], None, Some((SignalId("a"), "RISK", Some(1)))), Call(Crowd(limit), None, None), Call([a], None, None)];
    CallKeepsSound(empty, calls[0], s1, limit);
    GatheredKeepsSound(s1, Crowd(limit), None);
    CrowdArrives(s1, limit);
    var s2 := PruneExists(Gathered(s1, Crowd(limit), None), limit);
    assert Serves(s1, calls[1], s2, limit);
    TerminalGoesFirst(Gathered(s1, Crowd(limit), None), s2, limit);
    CallKeepsSound(s1, calls[1], s2, limit);
    AcceptsOne(s2, a);
    AcceptKeepsSound(s2, a);
    CrowdIsYoung(s2, limit);
    var s3 := PruneExists(Accept(s2, a), limit);
    assert Serves(s2, calls[2], s3, limit);
    YoungestStays(Accept(s2, a), s3, limit);
    stores := [empty, s1, s2, s3];
  }

  lemma EmptyIsSound()
    ensures Sound(Store(map[], map[]))
  {
  }
}
