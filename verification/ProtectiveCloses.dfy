/** What a closed trade row says, read off the evidence of the turn that closed it, and when a turn is accepted at all
    (app/services/protective_lifecycle.py:336-470, 574-612). */
module ProtectiveCloses {
  import opened Trading
  import opened ProtectiveLifecycle
  import opened ProtectiveLedger
  import opened ProtectiveRuns

  function Own(ev: Evidence, reason: Reason): Algo { if reason == StopLoss then ev.stop else ev.take }
  function Sibling(ev: Evidence, reason: Reason): Algo { if reason == StopLoss then ev.take else ev.stop }
  function SiblingGuard(t: Trade, reason: Reason): GuardId { if reason == StopLoss then t.take else t.stop }

  /** The queried order carries the ids the trade knows. */
  predicate Known(algo: Algo, guard: GuardId) {
    algo.client == Some(guard.client) && algo.order == Some(guard.order) && algo.status != Missing
  }

  /** The sibling is gone by itself, or was still waiting and its cancellation was confirmed. */
  predicate Gone(sibling: Algo, confirmed: bool) {
    || sibling.status == Canceled || sibling.status == Expired || sibling.status == Finished
    || (sibling.status == New && confirmed)
  }

  // ---------------------------------------------------------------- when fills are accepted

  /** The evidence shows exactly one side filled with `fills`, and order, position and trade agree about how much. */
  ghost predicate Shown(t: Trade, ev: Evidence, reason: Reason, fills: seq<Fill>) {
    var open := t.executed - Total(fills);
    && Known(ev.stop, t.stop) && Known(ev.take, t.take) && |ev.payloads| < 1000
    && fills != [] && Fills(ev.payloads, Own(ev, reason)) == Ok(fills) && Fills(ev.payloads, Sibling(ev, reason)) == Ok([])
    && open >= 0.0 && Own(ev, reason).executed == Some(Total(fills))
    && (open > 0.0 ==> Own(ev, reason).status == PartiallyFilled && ev.position == Some(Position(t.direction, open)))
    && (open == 0.0 ==> (Own(ev, reason).status == Filled || Own(ev, reason).status == Finished) && ev.position == None)
  }

  /** No fill on either side, and the position is what the trade still holds. */
  ghost predicate Quiet(t: Trade, ev: Evidence) {
    && Known(ev.stop, t.stop) && Known(ev.take, t.take) && |ev.payloads| < 1000
    && Fills(ev.payloads, ev.stop) == Ok([]) && Fills(ev.payloads, ev.take) == Ok([])
    && ev.position == Some(Position(t.direction, if t.remaining.Some? then t.remaining.value else t.executed))
  }

  lemma ObservedExactly(t: Trade, ev: Evidence)
    ensures var seen := Observe(t, ev);
      && (seen.Ok? && seen.value.Some? ==>
            var obs := seen.value.value;
            && Shown(t, ev, obs.reason, obs.fills) && obs.remaining == t.executed - Total(obs.fills)
            && obs.siblingCancelled == (obs.remaining == 0.0 && Gone(Sibling(ev, obs.reason), ev.cancelConfirmed)))
      && (forall reason, fills :: Shown(t, ev, reason, fills) ==>
            seen.Ok? && seen.value.Some? && seen.value.value.reason == reason && seen.value.value.fills == fills)
      && (seen == Ok(None) <==> Quiet(t, ev))
  {
    hide Fills, Total;
  }

  /** Fills were shown, the full close has its economics, the rows are about one trade, and what is recorded is among them. */
  ghost predicate Acceptable(s: State, ev: Evidence, reason: Reason, fills: seq<Fill>) {
    && Shown(s.memory, ev, reason, fills)
    && (Total(fills) == s.memory.executed ==> ev.economics.Some?)
    && s.durable.subject == s.memory.subject
    && (forall i, j :: 0 <= i < j < |s.events| ==> s.events[i].fillId != s.events[j].fillId)
    && (forall i :: 0 <= i < |s.events| ==> Contains(fills, s.events[i].fillId))
  }

  /** A turn of an open trade is verified exactly when it is quiet or its fills are acceptable; it takes acceptable fills, and
      any other turn changes nothing. */
  lemma TurnTakesFillsExactlyWhen(s: State, ev: Evidence)
    requires !s.memory.closed && !s.durable.closed
    ensures Step(s, ev) != s ==> exists reason, fills :: Acceptable(s, ev, reason, fills)
    ensures Reconciled(s, ev).Ok? <==> Quiet(s.memory, ev) || exists reason, fills :: Acceptable(s, ev, reason, fills)
    ensures forall reason, fills :: Acceptable(s, ev, reason, fills) ==>
      var t := Step(s, ev).durable;
      && Step(s, ev).memory == t && t.exit.Some? && t.exit.value.reason == reason && t.exit.value.quantity == Total(fills)
      && t.remaining == Some(s.memory.executed - Total(fills)) && t.updatedAt == ev.now
      && (t.closed <==> Total(fills) == s.memory.executed)
      && (!t.closed ==> t.siblingCancelled == None && t.economics == s.durable.economics && t.closedReason == s.durable.closedReason && t.closedAt == s.durable.closedAt)
  {
    hide Observe, Total, Fills, Unrecorded, EventsFor, PartialCount, Notional, Latest, Shown, EventIds, Ids, Contains, Quiet;
    ObservedExactly(s.memory, ev);
    var seen := Observe(s.memory, ev);
    if seen.Ok? && seen.value.Some? {
      var obs := seen.value.value;
      EvidenceKept(s.events, obs.fills);
      ObservedFillsExist(s.memory, ev);
      if Reconciled(s, ev).Ok? {
        assert ev.economics.Some? || Total(obs.fills) != s.memory.executed;
        assert DistinctEventIds(s.events);
        assert forall i :: 0 <= i < |s.events| ==> Contains(obs.fills, s.events[i].fillId);
        assert Acceptable(s, ev, obs.reason, obs.fills); }
    }
  }

  predicate Contains(fills: seq<Fill>, id: string) {
    exists j :: 0 <= j < |fills| && fills[j].id == id
  }

  lemma EvidenceKept(events: seq<Event>, fills: seq<Fill>)
    ensures EventIds(events) <= Ids(fills) <==> forall i :: 0 <= i < |events| ==> Contains(fills, events[i].fillId)
  {
    forall x ensures x in Ids(fills) <==> Contains(fills, x) {
      if Contains(fills, x) {
        var j :| 0 <= j < |fills| && fills[j].id == x;
        assert fills[j].id in Ids(fills);
      }
    }
    forall x ensures x in EventIds(events) <==> exists i :: 0 <= i < |events| && events[i].fillId == x {
      if i :| 0 <= i < |events| && events[i].fillId == x { assert events[i].fillId in EventIds(events); }
    }
  }

  // ---------------------------------------------------------------- the turn that closes a trade

  /** The row that `ev` closes: everything it says about the close is what that evidence shows. */
  ghost predicate ClosedBy(t: Trade, ev: Evidence) {
    && t.closed && t.closedReason.Some?
    && ev.economics.Some? && t.economics.Some?
    && t.economics.value.exitPrice == ev.economics.value.exitPrice
    && t.economics.value.gross == ev.economics.value.gross && t.economics.value.net == ev.economics.value.net
    && t.economics.value.commission == ev.economics.value.commission && t.economics.value.funding == ev.economics.value.funding
    && var reason := t.closedReason.value; var fills := Fills(ev.payloads, Own(ev, reason));
    && fills.Ok? && fills.value != [] && Total(fills.value) == t.executed && Fills(ev.payloads, Sibling(ev, reason)) == Ok([])
    && Known(Own(ev, reason), if reason == StopLoss then t.stop else t.take) && Known(Sibling(ev, reason), SiblingGuard(t, reason))
    && (Own(ev, reason).status == Filled || Own(ev, reason).status == Finished) && ev.position == None
    && t.remaining == Some(0.0) && t.exit.Some? && t.exit.value.quantity == t.executed
    && t.closedAt == Some(fills.value[|fills.value| - 1].at)
  }

  /** Both copies are of one trade, and the memory is never ahead of the row. */
  ghost predicate InStep(s: State) {
    SameTrade(s.memory, s.durable) && (s.memory.closed ==> s.durable.closed && s.memory.closedReason == s.durable.closedReason)
  }

  lemma StepKeepsInStep(s: State, look: Look)
    requires InStep(s)
    ensures InStep(StepOf(s, look)) && SameTrade(StepOf(s, look).durable, s.durable)
  {
    hide Observe, Total, Fills, Unrecorded, EventsFor, PartialCount, Notional, Latest, EventIds, Ids, DistinctEventIds;
  }

  lemma ClosingTurn(s: State, look: Look)
    requires InStep(s) && !s.durable.closed && StepOf(s, look).durable.closed
    ensures var t := StepOf(s, look).durable;
      && ClosedBy(t, look.ev) && t.updatedAt == look.ev.now
      && t.siblingCancelled == Some(Gone(Sibling(look.ev, t.closedReason.value), look.ev.cancelConfirmed))
  {
    hide Observe, Total, Fills, Unrecorded, EventsFor, PartialCount, Notional, EventIds, Ids, DistinctEventIds, GoodFills, Latest, Sorted;
    ObservedExactly(s.memory, look.ev);
    var obs := Observe(s.memory, look.ev).value.value;
    FillsAreGood(look.ev.payloads, Own(look.ev, obs.reason));
    GoodFillsEnd(obs.fills);
  }

  lemma GoodFillsEnd(fills: seq<Fill>)
    requires GoodFills(fills) && fills != []
    ensures Latest(fills) == fills[|fills| - 1]
  {
    LatestIsLast(fills);
  }

  // ---------------------------------------------------------------- settling the sibling afterwards

  /** The cleanup of a closed trade sees its sibling under the known ids, gone or with its cancellation confirmed. */
  predicate Settles(t: Trade, ev: Evidence) {
    && t.closedReason.Some? && Known(Sibling(ev, t.closedReason.value), SiblingGuard(t, t.closedReason.value))
    && var status := Sibling(ev, t.closedReason.value).status;
    (status == Canceled || status == Expired || status == Finished || ev.cancelConfirmed)
  }

  /** After the close only the sibling flag moves, and only up: exactly when a cleanup the memory still owes settles it. */
  lemma CleanupTurn(s: State, look: Look)
    requires InStep(s) && s.durable.closed
    ensures var t := StepOf(s, look).durable;
      && t.closedReason == s.durable.closedReason
      && t.siblingCancelled == if s.memory.closed && s.memory.siblingCancelled == Some(false) && Settles(s.memory, look.ev) then Some(true)
                               else s.durable.siblingCancelled
  {
    hide Observe, Updated, Unrecorded;
  }

  // ---------------------------------------------------------------- over every run

  lemma {:induction false} RunsStayInStep(s: State, looks: seq<Look>)
    requires InStep(s)
    ensures InStep(Run(s, looks)) && SameTrade(Run(s, looks).durable, s.durable)
  {
    hide StepOf, InStep;
    if looks != [] {
      RunsStayInStep(s, looks[..|looks| - 1]);
      StepKeepsInStep(Run(s, looks[..|looks| - 1]), looks[|looks| - 1]);
    }
  }

  /** Over every run from an opened trade that ends closed there is one turn that closed it. The row's economics, reason, exit
      and close time are that turn's; its sibling flag is what that turn saw of the sibling, except that a later turn which
      settled the sibling may have raised it. */
  lemma {:induction false} ClosedRowIsOneTurns(s: State, looks: seq<Look>) returns (i: nat)
    requires Opened(s) && Run(s, looks).durable.closed
    ensures i < |looks| && !Run(s, looks[..i]).durable.closed
    ensures var t := Run(s, looks).durable;
      && ClosedBy(t, looks[i].ev) && t.economics == looks[i].ev.economics
      && var gone := Gone(Sibling(looks[i].ev, t.closedReason.value), looks[i].ev.cancelConfirmed);
      && (t.siblingCancelled == Some(gone)
          || (!gone && t.siblingCancelled == Some(true) && exists j :: i < j < |looks| && Settles(t, looks[j].ev)))
  {
    hide StepOf, ClosedBy, InStep;
    assert looks != [];
    var init, look := looks[..|looks| - 1], looks[|looks| - 1];
    var before := Run(s, init);
    OpenedIsInStep(s);
    RunsStayInStep(s, init);
    if !before.durable.closed {
      i := |looks| - 1;
      ClosingTurn(before, look);
      SameEconomics(StepOf(before, look).durable, look.ev);
    } else {
      i := ClosedRowIsOneTurns(s, init);
      assert init[..i] == looks[..i];
      ClosedEconomicsNeverChange(before, look);
      CleanupTurn(before, look);
      SameClose(before.durable, StepOf(before, look).durable, looks[i].ev);
      SettlesAlike(before, StepOf(before, look).durable, look.ev);
      assert looks[|looks| - 1] == look;
    }
  }

  lemma OpenedIsInStep(s: State)
    requires Opened(s)
    ensures InStep(s)
  {
  }

  lemma SameEconomics(t: Trade, ev: Evidence)
    requires ClosedBy(t, ev)
    ensures t.economics == ev.economics
  {
  }

  lemma SameClose(t: Trade, u: Trade, ev: Evidence)
    requires ClosedBy(t, ev) && u.(siblingCancelled := t.siblingCancelled, updatedAt := t.updatedAt) == t
    ensures ClosedBy(u, ev)
  {
  }

  lemma SettlesAlike(s: State, t: Trade, ev: Evidence)
    requires InStep(s) && s.durable.closed && t.(siblingCancelled := s.durable.siblingCancelled, updatedAt := s.durable.updatedAt) == s.durable
    ensures s.memory.closed && Settles(s.memory, ev) ==> Settles(t, ev)
  {
  }

  // ---------------------------------------------------------------- the row and its recorded events

  function Quantity(events: seq<Event>): real {
    if events == [] then 0.0 else events[0].quantity + Quantity(events[1..])
  }

  function Proceeds(events: seq<Event>): real {
    if events == [] then 0.0 else events[0].price * events[0].quantity + Proceeds(events[1..])
  }

  lemma {:induction false} SumsAppend(events: seq<Event>, e: Event)
    ensures Quantity(events + [e]) == Quantity(events) + e.quantity
    ensures Proceeds(events + [e]) == Proceeds(events) + e.quantity * e.price
  {
    if events == [] {
      assert [e][1..] == [];
    } else {
      assert (events + [e])[1..] == events[1..] + [e];
      SumsAppend(events[1..], e);
    }
  }

  lemma {:induction false} SumsOfEvents(fills: seq<Fill>, executed: real, reason: Reason)
    ensures Quantity(EventsFor(fills, executed, reason)) == Total(fills)
    ensures Proceeds(EventsFor(fills, executed, reason)) == Notional(fills)
  {
    if fills != [] {
      var init := fills[..|fills| - 1];
      SumsOfEvents(init, executed, reason);
      SumsAppend(EventsFor(init, executed, reason), EventOf(fills[|fills| - 1], Total(fills), executed, reason));
    }
  }

  /** What an exact ledger says event by event and in sum: each event carries its fill's quantity, price and time, the events
      run in time order with ties by the text of the id, and the row's exit is their sum and their last. */
  lemma RowSumsItsEvents(s: State, fills: seq<Fill>, reason: Reason)
    requires Exact(s, fills, reason) && fills != []
    ensures |s.events| == |fills| && s.durable.exit.Some?
    ensures forall i :: 0 <= i < |fills| ==>
      var e := s.events[i]; e.fillId == fills[i].id && e.quantity == fills[i].quantity && e.price == fills[i].price && e.at == fills[i].at && e.reason == reason
    ensures forall i, j :: 0 <= i < j < |s.events| ==>
      s.events[i].at < s.events[j].at || (s.events[i].at == s.events[j].at && TextLess(s.events[i].fillId, s.events[j].fillId))
    ensures var exit, last := s.durable.exit.value, s.events[|s.events| - 1];
      && exit.quantity == Quantity(s.events) && exit.notional == Proceeds(s.events) && exit.reason == reason
      && exit.lastFill == last.fillId && exit.lastAt == last.at
      && (forall id :: id in exit.fillIds <==> exists i :: 0 <= i < |s.events| && s.events[i].fillId == id)
  {
    hide TextLess, Total, Notional, PartialCount, Quantity, Proceeds, EventsFor, Positive, DistinctIds;
    SumsOfEvents(fills, s.durable.executed, reason);
    forall i | 0 <= i < |fills| ensures s.events[i] == EventOf(fills[i], Total(fills[..i + 1]), s.durable.executed, reason) {
      EventAt(fills, s.durable.executed, reason, i);
    }
    forall i, j | 0 <= i < j < |fills| ensures Before(fills[i], fills[j]) {}
    forall id ensures id in s.durable.exit.value.fillIds <==> exists i :: 0 <= i < |s.events| && s.events[i].fillId == id {
      if id in Ids(fills) {
        var i :| 0 <= i < |fills| && fills[i].id == id;
        assert s.events[i].fillId == id;
      }
      if i :| 0 <= i < |s.events| && s.events[i].fillId == id { assert fills[i].id in Ids(fills); }
    }
  }
}
