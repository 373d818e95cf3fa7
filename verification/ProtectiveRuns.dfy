/** What every run of protective reconciliations keeps. */
module ProtectiveRuns {
  import opened Trading
  import opened ProtectiveLifecycle
  import opened ProtectiveLedger

  predicate GoodFills(fills: seq<Fill>) {
    Sorted(fills) && Positive(fills) && DistinctIds(fills)
  }

  lemma FillsAreGood(payloads: seq<Payload>, algo: Algo)
    requires Fills(payloads, algo).Ok?
    ensures GoodFills(Fills(payloads, algo).value)
  {
    if algo.actual.Some? { CollectedFills(payloads, algo.actual.value); }
  }

  // ---------------------------------------------------------------- totals

  lemma {:induction false} TotalGrows(fills: seq<Fill>, low: nat, high: nat)
    requires Positive(fills) && low <= high <= |fills|
    ensures Total(fills[..low]) <= Total(fills[..high])
    ensures low < high ==> Total(fills[..low]) + fills[high - 1].quantity <= Total(fills[..high])
    decreases high
  {
    if low < high {
      TotalGrows(fills, low, high - 1);
      assert fills[..high][..high - 1] == fills[..high - 1];
    }
  }

  lemma TotalOfNext(fills: seq<Fill>, i: nat)
    requires i < |fills|
    ensures Total(fills[..i + 1]) == Total(fills[..i]) + fills[i].quantity
  {
    assert fills[..i + 1][..i] == fills[..i];
  }

  // ---------------------------------------------------------------- an exact ledger and what it means

  /** The trade row says exactly what `fills` of the `reason` side say. */
  ghost predicate Follows(t: Trade, fills: seq<Fill>, reason: Reason)
    requires fills != []
  {
    var last := fills[|fills| - 1];
    && t.remaining == Some(t.executed - Total(fills)) && Total(fills) <= t.executed
    && t.exit == Some(Exit(Total(fills), Notional(fills), Ids(fills), reason, PartialCount(fills, fills, t.executed), last.id, last.at))
    && (t.closed <==> Total(fills) == t.executed)
    && (t.closed ==> t.economics.Some? && t.closedReason == Some(reason) && t.closedAt == Some(last.at))
  }

  /** What never changes about a trade. */
  predicate SameTrade(t: Trade, u: Trade) {
    t.subject == u.subject && t.stop == u.stop && t.take == u.take && t.executed == u.executed && t.direction == u.direction
  }

  ghost predicate Exact(s: State, fills: seq<Fill>, reason: Reason) {
    && GoodFills(fills)
    && s.events == EventsFor(fills, s.durable.executed, reason)
    && SameTrade(s.memory, s.durable)
    && (s.memory.closed ==> s.durable.closed)
    && (fills == [] ==> !s.durable.closed && s.durable.remaining == None && s.durable.exit == None)
    && (fills != [] ==> Follows(s.durable, fills, reason))
  }

  /** A trade just opened: no events, nothing closed. */
  ghost predicate Opened(s: State) {
    s.events == [] && s.memory == s.durable && !s.durable.closed && s.durable.remaining == None && s.durable.exit == None
  }

  /** Reading an exact ledger: one event per fill, prefix sums, conservation against the entry quantity, and only the
      last event of a full close is anything but a partial close. */
  lemma ExactLedgerMeans(s: State, fills: seq<Fill>, reason: Reason)
    requires Exact(s, fills, reason)
    ensures |s.events| == |fills|
    ensures forall i :: 0 <= i < |fills| ==> s.events[i].fillId == fills[i].id && s.events[i].cumulative == Total(fills[..i + 1])
    ensures forall i :: 0 <= i < |fills| ==> s.events[i].cumulative + s.events[i].remaining == s.durable.executed
    ensures forall i :: 0 <= i < |fills| ==> s.events[i].kind == if i == |fills| - 1 && s.durable.closed then Closing(reason) else PartialClose
    ensures fills != [] ==> s.durable.exit.value.partialCloses == PartialEvents(s.events)
    ensures fills != [] ==> s.durable.exit.value.quantity + s.durable.remaining.value == s.durable.executed
  {
    hide PartialCount, UpTo, PartialEvents, Notional, Ids;
    forall i | 0 <= i < |fills|
      ensures s.events[i] == EventOf(fills[i], Total(fills[..i + 1]), s.durable.executed, reason)
      ensures i < |fills| - 1 ==> Total(fills[..i + 1]) < Total(fills)
      ensures i == |fills| - 1 ==> Total(fills[..i + 1]) == Total(fills)
    {
      EventAt(fills, s.durable.executed, reason, i);
      TotalGrows(fills, i + 1, |fills|);
      assert fills[..|fills|] == fills;
    }
    assert fills[..|fills|] == fills;
    PartialCountCountsEvents(fills, s.durable.executed, reason, |fills|);
  }

  // ---------------------------------------------------------------- one transaction

  lemma EventIdsAreFillIds(fills: seq<Fill>, executed: real, reason: Reason)
    ensures EventIds(EventsFor(fills, executed, reason)) == Ids(fills)
    ensures DistinctIds(fills) ==> DistinctEventIds(EventsFor(fills, executed, reason))
  {
    var events := EventsFor(fills, executed, reason);
    forall i | 0 <= i < |fills| ensures events[i].fillId == fills[i].id {
      EventAt(fills, executed, reason, i);
    }
    hide EventsFor;
    forall x | x in Ids(fills) ensures x in EventIds(events) {
      var i :| 0 <= i < |fills| && fills[i].id == x;
      assert events[i].fillId == x;
    }
  }

  lemma {:induction false} UnrecordedIsTheTail(events: seq<Event>, known: set<string>, n: nat)
    requires n <= |events|
    requires forall i :: 0 <= i < |events| ==> (events[i].fillId in known <==> i < n)
    ensures Unrecorded(events, known) == events[n..]
  {
    if |events| > 0 {
      var init := events[..|events| - 1];
      UnrecordedIsTheTail(init, known, if n < |events| then n else n - 1);
    }
  }

  /** Fills that arrive after the recorded ones extend the ledger to exactly the events of all of them. */
  lemma LaterFillsExtendTheLedger(before: seq<Fill>, now: seq<Fill>, executed: real, reason: Reason)
    requires DistinctIds(now) && before <= now
    ensures var events := EventsFor(before, executed, reason);
      events + Unrecorded(EventsFor(now, executed, reason), EventIds(events)) == EventsFor(now, executed, reason)
    ensures EventIds(EventsFor(before, executed, reason)) <= Ids(now)
    ensures DistinctEventIds(EventsFor(before, executed, reason))
  {
    hide EventsFor, DistinctIds, Ids, Unrecorded;
    var n := |before|;
    var events, all := EventsFor(before, executed, reason), EventsFor(now, executed, reason);
    assert now[..n] == before;
    EventsOfPrefix(now, n, executed, reason);
    EventIdsAreFillIds(before, executed, reason);
    EventIdsAreFillIds(now, executed, reason);
    PrefixKeepsDistinct(before, now);
    PrefixKeepsIds(before, now);
    assert all[..n] == events;
    forall i | 0 <= i < |all| ensures all[i].fillId in EventIds(events) <==> i < n {
      if i < n { assert events[i].fillId == all[i].fillId; }
    }
    UnrecordedIsTheTail(all, EventIds(events), n);
  }

  lemma PrefixKeepsDistinct(before: seq<Fill>, now: seq<Fill>)
    requires DistinctIds(now) && before <= now
    ensures DistinctIds(before)
  {
  }

  lemma PrefixKeepsIds(before: seq<Fill>, now: seq<Fill>)
    requires before <= now
    ensures Ids(before) <= Ids(now)
  {
    forall x | x in Ids(before) ensures x in Ids(now) {
      var i :| 0 <= i < |before| && before[i].id == x;
      assert now[i].id == x;
    }
  }

  lemma {:induction false} EventsOfPrefix(fills: seq<Fill>, n: nat, executed: real, reason: Reason)
    requires n <= |fills|
    ensures EventsFor(fills, executed, reason)[..n] == EventsFor(fills[..n], executed, reason)
  {
    hide EventOf;
    if n < |fills| {
      var init := fills[..|fills| - 1];
      EventsOfPrefix(init, n, executed, reason);
      assert init[..n] == fills[..n];
    } else {
      assert fills[..n] == fills;
    }
  }

  // ---------------------------------------------------------------- exactly when the ledger stays exact

  /** A recorded fill keeps its running total only at its old position: an earlier newcomer makes it larger. */
  lemma SameTotalSamePlace(before: seq<Fill>, now: seq<Fill>, i: nat, j: nat)
    requires GoodFills(now) && i < |before| && j < |now| && i <= |now|
    requires before[..i] == now[..i] && before[i] == now[j] && DistinctIds(before)
    requires Total(before[..i + 1]) == Total(now[..j + 1])
    ensures i == j
  {
    hide Sorted, Total;
    TotalOfNext(before, i);
    if i < j {
      TotalOfNext(now, i);
      TotalGrows(now, i + 1, j + 1);
    }
  }

  lemma EventFindsItsFill(fills: seq<Fill>, e: Event, executed: real, reason: Reason) returns (j: nat)
    requires e in EventsFor(fills, executed, reason)
    ensures j < |fills| && e.fillId == fills[j].id && e.cumulative == Total(fills[..j + 1])
  {
    var events := EventsFor(fills, executed, reason);
    j :| 0 <= j < |events| && events[j] == e;
    EventAt(fills, executed, reason, j);
  }

  lemma {:induction false} RecordedFillsArePrefix(before: seq<Fill>, now: seq<Fill>, executed: real, reason: Reason, n: nat)
    requires GoodFills(before) && GoodFills(now) && n <= |before|
    requires forall f :: f in before ==> f in now
    requires forall e :: e in EventsFor(before, executed, reason) ==> e in EventsFor(now, executed, reason)
    ensures n <= |now| && before[..n] == now[..n]
  {
    hide EventsFor, EventOf, Sorted, Positive, Total;
    if n > 0 {
      RecordedFillsArePrefix(before, now, executed, reason, n - 1);
      var i := n - 1;
      var e := EventsFor(before, executed, reason)[i];
      EventAt(before, executed, reason, i);
      EventFields(before[i], Total(before[..i + 1]), executed, reason);
      var j := EventFindsItsFill(now, e, executed, reason);
      assert before[i] in before;
      var m :| 0 <= m < |now| && now[m] == before[i];
      assert m == j;
      SameTotalSamePlace(before, now, i, j);
      assert before[..n] == before[..i] + [before[i]] && now[..n] == now[..i] + [now[i]];
    }
  }

  lemma EventFields(fill: Fill, cumulative: real, executed: real, reason: Reason)
    ensures var e := EventOf(fill, cumulative, executed, reason); e.fillId == fill.id && e.cumulative == cumulative
  {
  }

  /** One transaction over an exact ledger leaves it exact if and only if every new fill sorts after every recorded
      one. A late fill with an earlier (time, id) key leaves the recorded running totals stale. */
  lemma LedgerStaysExactIffFillsArriveInOrder(durable: Trade, before: seq<Fill>, obs: Observation, economics: Option<Economics>, now: int)
    requires GoodFills(before) && GoodFills(obs.fills) && obs.fills != [] && !durable.closed
    requires forall f :: f in before ==> f in obs.fills
    requires obs.remaining == 0.0 ==> economics.Some?
    ensures var events := EventsFor(before, durable.executed, obs.reason);
      var r := Applied(durable, events, obs, economics, now);
      r.Ok? && (multiset(events + r.value.1) == multiset(EventsFor(obs.fills, durable.executed, obs.reason)) <==> before <= obs.fills)
  {
    hide EventOf, EventsFor, GoodFills, Updated, Unrecorded, Ids, EventIds, DistinctEventIds, Applied;
    var events, all := EventsFor(before, durable.executed, obs.reason), EventsFor(obs.fills, durable.executed, obs.reason);
    GoodFillsAreDistinct(before);
    AppliedAppends(durable, before, obs, economics, now);
    var appended := Unrecorded(all, EventIds(events));
    if before <= obs.fills {
      assert DistinctIds(obs.fills) by { GoodFillsAreDistinct(obs.fills); }
      LaterFillsExtendTheLedger(before, obs.fills, durable.executed, obs.reason);
    }
    if multiset(events + appended) == multiset(all) {
      forall e | e in events ensures e in all {
        assert e in multiset(events + appended);
      }
      RecordedFillsArePrefix(before, obs.fills, durable.executed, obs.reason, |before|);
      assert before[..|before|] == before;
    }
  }

  lemma GoodFillsAreDistinct(fills: seq<Fill>)
    requires GoodFills(fills)
    ensures DistinctIds(fills)
  {
  }

  lemma AppliedAppends(durable: Trade, before: seq<Fill>, obs: Observation, economics: Option<Economics>, now: int)
    requires DistinctIds(before) && obs.fills != [] && !durable.closed
    requires forall f :: f in before ==> f in obs.fills
    requires obs.remaining == 0.0 ==> economics.Some?
    ensures var events := EventsFor(before, durable.executed, obs.reason);
      var r := Applied(durable, events, obs, economics, now);
      r.Ok? && r.value.1 == Unrecorded(EventsFor(obs.fills, durable.executed, obs.reason), EventIds(events))
  {
    hide EventOf, EventsFor, Updated, Unrecorded;
    EventIdsAreFillIds(before, durable.executed, obs.reason);
    forall x | x in Ids(before) ensures x in Ids(obs.fills) {
      var i :| 0 <= i < |before| && before[i].id == x;
      assert before[i] in obs.fills;
    }
  }

  // ---------------------------------------------------------------- runs

  /** One turn in a run: what the exchange shows, and whether the process lives to publish the result in memory. */
  datatype Look = Look(ev: Evidence, published: bool, stopSeen: nat, takeSeen: nat)

  function StepOf(s: State, look: Look): State {
    var next := Step(s, look.ev);
    if look.published then next else State(s.memory, next.durable, next.events)
  }

  function Run(s: State, looks: seq<Look>): State {
    if looks == [] then s else StepOf(Run(s, looks[..|looks| - 1]), looks[|looks| - 1])
  }

  /** The two fill histories of the trade's protective orders, in (time, id) order. */
  datatype History = History(stop: seq<Fill>, take: seq<Fill>) {
    function Of(reason: Reason): seq<Fill> { if reason == StopLoss then stop else take }
  }

  function Seen(look: Look, reason: Reason): nat { if reason == StopLoss then look.stopSeen else look.takeSeen }
  function AlgoOf(ev: Evidence, reason: Reason): Algo { if reason == StopLoss then ev.stop else ev.take }

  /** A look shows the history as far as it has grown. */
  ghost predicate Shows(look: Look, h: History, reason: Reason) {
    && Seen(look, reason) <= |h.Of(reason)|
    && (Fills(look.ev.payloads, AlgoOf(look.ev, reason)).Ok? ==>
          Fills(look.ev.payloads, AlgoOf(look.ev, reason)).value == h.Of(reason)[..Seen(look, reason)])
  }

  /** Fill history is append-only along the run. */
  ghost predicate AppendOnly(looks: seq<Look>, h: History) {
    && (forall i :: 0 <= i < |looks| ==> Shows(looks[i], h, StopLoss) && Shows(looks[i], h, TakeProfit))
    && (forall i, j :: 0 <= i < j < |looks| ==> looks[i].stopSeen <= looks[j].stopSeen && looks[i].takeSeen <= looks[j].takeSeen)
  }

  /** What a successful observation of an open trade rests on. */
  lemma ObservationFacts(t: Trade, ev: Evidence)
    requires Observe(t, ev).Ok? && Observe(t, ev).value.Some?
    ensures var obs := Observe(t, ev).value.value;
      && Fills(ev.payloads, AlgoOf(ev, obs.reason)) == Ok(obs.fills) && obs.fills != []
      && Fills(ev.payloads, AlgoOf(ev, if obs.reason == StopLoss then TakeProfit else StopLoss)) == Ok([])
      && obs.remaining == t.executed - Total(obs.fills) && Total(obs.fills) <= t.executed
      && (if obs.remaining == 0.0 then ev.position == None else ev.position == Some(Position(t.direction, obs.remaining)))
  {
    hide Fills, Total, SiblingCancelled;
  }

  lemma UpdatedFollows(durable: Trade, obs: Observation, economics: Option<Economics>, now: int)
    requires obs.fills != [] && GoodFills(obs.fills) && !durable.closed && (obs.remaining == 0.0 ==> economics.Some?)
    requires obs.remaining == durable.executed - Total(obs.fills) && Total(obs.fills) <= durable.executed
    ensures Follows(Updated(durable, obs, economics, now), obs.fills, obs.reason)
    ensures SameTrade(Updated(durable, obs, economics, now), durable)
  {
    hide Total, Notional, PartialCount, Ids;
    LatestIsLast(obs.fills);
  }

  /** One reconciliation over an exact ledger, whose evidence extends what was recorded, keeps it exact. */
  lemma StepKeepsExact(s: State, fills: seq<Fill>, reason: Reason, look: Look) returns (fills': seq<Fill>, reason': Reason)
    requires Exact(s, fills, reason)
    requires Fills(look.ev.payloads, AlgoOf(look.ev, reason)).Ok? ==> fills <= Fills(look.ev.payloads, AlgoOf(look.ev, reason)).value
    ensures Exact(StepOf(s, look), fills', reason')
    ensures fills <= fills' && (fills != [] ==> reason' == reason)
    ensures fills' == fills || Fills(look.ev.payloads, AlgoOf(look.ev, reason')) == Ok(fills')
  {
    hide Observe, Total, EventsFor, Fills, GoodFills, Updated, Unrecorded;
    fills', reason' := fills, reason;
    var ev := look.ev;
    if !s.memory.closed {
      var seen := Observe(s.memory, ev);
      if seen.Ok? && seen.value.Some? && Reconciled(s, ev).Ok? && !s.durable.closed {
        var obs := seen.value.value;
        ObservationFacts(s.memory, ev);
        FillsAreGood(ev.payloads, AlgoOf(ev, obs.reason));
        UpdatedFollows(s.durable, obs, ev.economics, ev.now);
        LedgerGrows(fills, reason, obs, s.durable.executed);
        fills', reason' := obs.fills, obs.reason;
      }
    }
  }

  lemma LedgerGrows(fills: seq<Fill>, reason: Reason, obs: Observation, executed: real)
    requires GoodFills(obs.fills) && fills <= obs.fills && (fills != [] ==> reason == obs.reason)
    ensures var events := EventsFor(fills, executed, reason);
      events + Unrecorded(EventsFor(obs.fills, executed, obs.reason), EventIds(events)) == EventsFor(obs.fills, executed, obs.reason)
  {
    LaterFillsExtendTheLedger(fills, obs.fills, executed, obs.reason);
  }

  /** Over every run with append-only fill history, including turns whose result is lost before it is published, the
      ledger holds exactly the events of the fills recorded so far, which are a prefix of one side's history. */
  lemma {:induction false} RunsKeepTheLedgerExact(s: State, looks: seq<Look>, h: History) returns (fills: seq<Fill>, reason: Reason)
    requires Opened(s) && AppendOnly(looks, h)
    ensures Exact(Run(s, looks), fills, reason) && fills <= h.Of(reason)
    ensures |fills| <= if looks == [] then 0 else Seen(looks[|looks| - 1], reason)
  {
    hide Exact, StepOf, Fills;
    if looks == [] {
      fills, reason := [], StopLoss;
      OpenedIsExact(s);
    } else {
      var look, init := looks[|looks| - 1], looks[..|looks| - 1];
      assert AppendOnly(init, h);
      var before, r := RunsKeepTheLedgerExact(s, init, h);
      assert Shows(look, h, r);
      assert |before| <= Seen(look, r) by { if init != [] { assert looks[|init| - 1] == init[|init| - 1]; } }
      if Fills(look.ev.payloads, AlgoOf(look.ev, r)).Ok? {
        assert before <= h.Of(r)[..Seen(look, r)];
      }
      fills, reason := StepKeepsExact(Run(s, init), before, r, look);
      assert Shows(look, h, reason);
    }
  }

  lemma OpenedIsExact(s: State)
    requires Opened(s)
    ensures Exact(s, [], StopLoss)
  {
  }

  /** Nothing a run does changes a closed trade but its sibling flag and time stamp, and no event is added. */
  lemma ClosedEconomicsNeverChange(s: State, look: Look)
    requires s.durable.closed
    ensures var t := StepOf(s, look);
      t.events == s.events && t.durable.(siblingCancelled := s.durable.siblingCancelled, updatedAt := s.durable.updatedAt) == s.durable
  {
    hide Observe, Updated, Unrecorded;
  }

  lemma {:induction false} ClosedStaysClosedOverRuns(s: State, looks: seq<Look>)
    requires s.durable.closed
    ensures var t := Run(s, looks);
      t.events == s.events && t.durable.(siblingCancelled := s.durable.siblingCancelled, updatedAt := s.durable.updatedAt) == s.durable
  {
    hide StepOf;
    if looks != [] {
      ClosedStaysClosedOverRuns(s, looks[..|looks| - 1]);
      ClosedEconomicsNeverChange(Run(s, looks[..|looks| - 1]), looks[|looks| - 1]);
    }
  }

  /** Reconciling again on the same evidence adds no event and changes nothing the first turn recorded; only the
      sibling flag of a closed trade may still be settled. */
  lemma RepeatingAddsNothing(s: State, fills: seq<Fill>, reason: Reason, ev: Evidence)
    requires Exact(s, fills, reason)
    requires Fills(ev.payloads, AlgoOf(ev, reason)).Ok? ==> fills <= Fills(ev.payloads, AlgoOf(ev, reason)).value
    ensures var once := Step(s, ev); var twice := Step(once, ev);
      && twice.events == once.events
      && twice.durable.(siblingCancelled := once.durable.siblingCancelled, updatedAt := once.durable.updatedAt) == once.durable
  {
    hide Observe, Total, EventsFor, Fills, GoodFills, Updated, Unrecorded;
    var once := Step(s, ev);
    if !s.memory.closed && Reconciled(s, ev).Ok? && Observe(s.memory, ev).value.Some? && !s.durable.closed && !once.durable.closed {
      var obs := Observe(s.memory, ev).value.value;
      ObservationFacts(s.memory, ev);
      FillsAreGood(ev.payloads, AlgoOf(ev, obs.reason));
      UpdatedFollows(s.durable, obs, ev.economics, ev.now);
      LedgerGrows(fills, reason, obs, s.durable.executed);
      LedgerGrows(obs.fills, obs.reason, obs, s.durable.executed);
      PartialRepeat(s.durable, obs, ev);
      SameObservation(s.memory, once.memory, ev);
    }
  }

  lemma PartialRepeat(durable: Trade, obs: Observation, ev: Evidence)
    requires obs.fills != [] && obs.remaining != 0.0
    ensures var t := Updated(durable, obs, ev.economics, ev.now);
      Updated(t, obs, ev.economics, ev.now) == t && SameTrade(t, durable) && t.closed == durable.closed
  {
    hide Total, Notional, PartialCount, Ids;
  }

  /** An observation that found fills depends on the trade only through its order ids, entry quantity and direction. */
  lemma SameObservation(t: Trade, u: Trade, ev: Evidence)
    requires t.executed == u.executed && t.direction == u.direction && t.stop == u.stop && t.take == u.take
    requires Observe(t, ev).Ok? && Observe(t, ev).value.Some?
    ensures Observe(u, ev) == Observe(t, ev)
  {
    hide Fills, Total, SiblingCancelled;
  }

  /** An accepted observation pins the durable row to the exchange: the open quantity it records is the live position. */
  lemma AcceptedTurnMatchesExchange(s: State, ev: Evidence)
    requires !s.memory.closed && !s.durable.closed && s.memory.executed == s.durable.executed
    requires Reconciled(s, ev).Ok? && Observe(s.memory, ev).value.Some?
    ensures var t := Step(s, ev).durable;
      ev.position == (if t.closed then None else Some(Position(s.memory.direction, t.EffectiveOpen()))) && (t.closed ==> t.EffectiveOpen() == 0.0)
  {
    hide Observe, Total, Unrecorded, EventsFor;
    ObservationFacts(s.memory, ev);
  }

  // ---------------------------------------------------------------- an exchange that only appends

  const First := Fill("999", 1.0, 100.0, 10)
  const Second := Fill("1000", 1.0, 100.0, 10)
  const FirstRow := Payload(7, Some("999"), true, 1.0, 100.0, 10)
  const SecondRow := Payload(7, Some("1000"), true, 1.0, 100.0, 10)

  /** The trade's history shows `rows`; its stop has executed that many units and the rest of three is still open. */
  function Sight(t: Trade, rows: seq<Payload>, executed: real): Evidence {
    Evidence(Algo(Some(t.stop.client), Some(t.stop.order), Some(7), PartiallyFilled, Some(executed)),
             Algo(Some(t.take.client), Some(t.take.order), None, New, None),
             rows, Some(Position(t.direction, 3.0 - executed)), true, None, 11)
  }

  lemma FillsInSight(t: Trade)
    ensures Fills([FirstRow], Sight(t, [FirstRow], 1.0).stop) == Ok([First])
    ensures Fills([FirstRow, SecondRow], Sight(t, [FirstRow, SecondRow], 2.0).stop) == Ok([Second, First])
  {
    ThousandSortsFirst();
    hide TextLess, SortFills;
    LaterSortsFirst(First, Second);
    SortOne(First);
    assert [FirstRow][..0] == [] && [FirstRow, SecondRow][..1] == [FirstRow];
    assert Collect([], 7) == Ok([]);
    assert Collect([FirstRow], 7) == Ok([First]) by { assert [] + [First] == [First]; }
    assert Ids([First]) == {"999"} by { OneId(First); }
    hide Ids;
    assert Collect([FirstRow, SecondRow], 7) == Ok([First] + [Second]);
    assert [First] + [Second] == [First, Second];
  }

  lemma ThousandSortsFirst()
    ensures TextLess("1000", "999") && "1000" != "999"
  {
    assert |"1000"| != |"999"|;
  }

  lemma LaterSortsFirst(first: Fill, second: Fill)
    requires first.at == second.at && TextLess(second.id, first.id) && first.id != second.id && first.quantity > 0.0 && second.quantity > 0.0
    ensures SortFills([first, second]) == [second, first] && GoodFills([first]) && GoodFills([second, first])
  {
    hide TextLess, SortFills;
    BeforeOrders(second, first);
    assert Before(second, first);
    hide Before;
    SortTwo(first, second);
  }

  lemma SortTwo(a: Fill, b: Fill)
    requires Before(b, a) && !Before(a, b)
    ensures SortFills([a, b]) == [b, a]
  {
    hide Before;
    assert [a, b][..1] == [a] && [a][..0] == [];
    assert SortFills([a]) == [a];
    assert Insert([a], b) == [b] + [a];
  }

  lemma SortOne(f: Fill)
    ensures SortFills([f]) == [f]
  {
    assert [f][..0] == [] && SortFills([]) == [];
  }

  lemma OneId(f: Fill)
    ensures Ids([f]) == {f.id}
  {
    assert [f][0].id in Ids([f]);
  }

  lemma SightIsObserved(t: Trade, rows: seq<Payload>, fills: seq<Fill>, executed: real)
    requires t.executed == 3.0 && 0.0 < executed < 3.0 && |rows| < 1000 && fills != [] && Total(fills) == executed
    requires Fills(rows, Sight(t, rows, executed).stop) == Ok(fills)
    ensures Observe(t, Sight(t, rows, executed)) == Ok(Some(Observation(StopLoss, fills, 3.0 - executed, false)))
  {
    hide Total, SiblingCancelled, Collect, SortFills;
  }

  /** An open trade takes one observation with fills: the recorded events are followed by the missing ones. */
  lemma SightIsApplied(s: State, rows: seq<Payload>, fills: seq<Fill>, executed: real)
    requires !s.memory.closed && !s.durable.closed && SameTrade(s.memory, s.durable) && s.memory.executed == 3.0
    requires 0.0 < executed < 3.0 && |rows| < 1000 && fills != [] && Total(fills) == executed
    requires Fills(rows, Sight(s.memory, rows, executed).stop) == Ok(fills)
    requires DistinctEventIds(s.events) && EventIds(s.events) <= Ids(fills)
    ensures var next := Step(s, Sight(s.memory, rows, executed));
      && next.events == s.events + Unrecorded(EventsFor(fills, 3.0, StopLoss), EventIds(s.events))
      && next.memory == next.durable && !next.durable.closed && SameTrade(next.memory, s.memory)
  {
    hide Observe, Total, Fills, EventsFor, Unrecorded, EventIds, DistinctEventIds, Ids, Notional, PartialCount, Latest;
    SightIsObserved(s.memory, rows, fills, executed);
  }

  lemma TotalsInSight()
    ensures Total([First]) == 1.0 && Total([Second, First]) == 2.0 && Total([Second]) == 1.0
  {
    assert [First][..0] == [] && [Second][..0] == [] && [Second, First][..1] == [Second];
  }

  lemma EventsInSight()
    ensures EventsFor([First], 3.0, StopLoss) == [EventOf(First, 1.0, 3.0, StopLoss)]
    ensures EventsFor([Second, First], 3.0, StopLoss) == [EventOf(Second, 1.0, 3.0, StopLoss), EventOf(First, 2.0, 3.0, StopLoss)]
  {
    TotalsInSight();
    hide Total, EventOf;
    assert [First][..0] == [] && [Second][..0] == [] && [Second, First][..1] == [Second];
    assert EventsFor([], 3.0, StopLoss) == [];
    assert EventsFor([Second], 3.0, StopLoss) == [EventOf(Second, 1.0, 3.0, StopLoss)];
  }

  lemma UnrecordedInSight(e: Event, f: Event)
    requires e.fillId == "999" && f.fillId == "1000"
    ensures EventIds([]) == {} && EventIds([e]) == {"999"} && DistinctEventIds([]) && DistinctEventIds([e])
    ensures Unrecorded([e], {}) == [e]
    ensures forall late: Event :: late.fillId == "999" ==> Unrecorded([f, late], {"999"}) == [f]
  {
    ThousandSortsFirst();
    assert [e][0].fillId in EventIds([e]);
    assert Unrecorded([], {}) == [] && [e][..0] == [];
    forall late: Event | late.fillId == "999" ensures Unrecorded([f, late], {"999"}) == [f] {
      assert [f, late][..1] == [f] && [f][..0] == [];
      assert Unrecorded([], {"999"}) == [];
      assert Unrecorded([f], {"999"}) == [f];
    }
  }

  lemma TwoLooks(s: State, a: Look, b: Look)
    ensures Run(s, [a, b]) == StepOf(StepOf(s, a), b)
  {
    hide StepOf;
    assert [a, b][..1] == [a] && [a][..0] == [] && Run(s, []) == s;
    assert Run(s, [a]) == StepOf(s, a);
  }

  /** No fills have two events with the same running total. */
  lemma RepeatedTotalIsNeverExact(s: State, fills: seq<Fill>, reason: Reason)
    requires |s.events| == 2 && s.events[0].cumulative == s.events[1].cumulative
    ensures !Exact(s, fills, reason)
  {
    hide Exact, Total;
    if Exact(s, fills, reason) {
      ExactLedgerMeans(s, fills, reason);
      assert Positive(fills) by { ExactFillsArePositive(s, fills, reason); }
      TotalGrows(fills, 1, 2);
    }
  }

  lemma ExactFillsArePositive(s: State, fills: seq<Fill>, reason: Reason)
    requires Exact(s, fills, reason)
    ensures Positive(fills)
  {
    hide Follows, EventsFor;
  }

  lemma IdsInSight()
    ensures Ids([First]) == {"999"} && "999" in Ids([Second, First])
  {
    OneId(First);
    assert [Second, First][1].id in Ids([Second, First]);
  }

  /** Two looks at an exchange that only appends a row to its history, from a trade just opened. Ids are texts, so of two
      fills of one instant the later, "1000", sorts before the earlier, "999": afterwards both recorded events claim the
      running total of one unit, and the ledger is exact for no fills at all. */
  lemma FillsOfOneInstantCanBreakTheLedger(s: State) returns (looks: seq<Look>)
    requires Opened(s) && s.durable.executed == 3.0
    ensures |looks| == 2 && looks[0].ev.payloads == [FirstRow] && looks[1].ev.payloads == looks[0].ev.payloads + [SecondRow]
    ensures looks[0].published && looks[1].published
    ensures var end := Run(s, looks);
      && |end.events| == 2 && end.events[0].fillId == "999" && end.events[1].fillId == "1000"
      && end.events[0].cumulative == end.events[1].cumulative == 1.0
      && forall fills, reason :: !Exact(end, fills, reason)
  {
    var one, two := Sight(s.memory, [FirstRow], 1.0), Sight(s.memory, [FirstRow, SecondRow], 2.0);
    var a, b := Look(one, true, 1, 0), Look(two, true, 2, 0);
    looks := [a, b];
    TwoLooks(s, a, b);
    FillsInSight(s.memory);
    TotalsInSight();
    IdsInSight();
    EventsInSight();
    var first, second := EventOf(First, 1.0, 3.0, StopLoss), EventOf(Second, 1.0, 3.0, StopLoss);
    UnrecordedInSight(first, second);
    hide Step, Run, Exact, Total, EventsFor, Unrecorded, EventIds, DistinctEventIds, Ids, Fills, TextLess;
    SightIsApplied(s, [FirstRow], [First], 1.0);
    var middle := Step(s, one);
    assert middle.events == [first] by { assert [] + [first] == [first]; }
    SightIsApplied(middle, [FirstRow, SecondRow], [Second, First], 2.0);
    var end := Step(middle, two);
    assert end.events == [first, second];
    forall fills, reason ensures !Exact(end, fills, reason) {
      RepeatedTotalIsNeverExact(end, fills, reason);
    }
  }
}
