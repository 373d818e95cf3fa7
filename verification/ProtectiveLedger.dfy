/** The durable side of the protective lifecycle: observation checks, the transaction that appends one event per fill
    and updates the trade row. */
module ProtectiveLedger {
  import opened Trading
  import opened ProtectiveLifecycle

  // ---------------------------------------------------------------- events of a fill sequence

  function EventOf(fill: Fill, cumulative: real, executed: real, reason: Reason): Event {
    Event(fill.id, if executed - cumulative > 0.0 then PartialClose else Closing(reason), reason,
          fill.quantity, fill.price, cumulative, executed - cumulative, fill.at)
  }

  /** One event per fill, with running totals. */
  function EventsFor(fills: seq<Fill>, executed: real, reason: Reason): (events: seq<Event>)
    ensures |events| == |fills|
  {
    if fills == [] then []
    else EventsFor(fills[..|fills| - 1], executed, reason) + [EventOf(fills[|fills| - 1], Total(fills), executed, reason)]
  }

  function EventIds(events: seq<Event>): set<string> {
    set i | 0 <= i < |events| :: events[i].fillId
  }

  predicate DistinctEventIds(events: seq<Event>) {
    forall i, j :: 0 <= i < j < |events| ==> events[i].fillId != events[j].fillId
  }

  function Unrecorded(events: seq<Event>, known: set<string>): seq<Event> {
    if events == [] then []
    else
      var last, rest := events[|events| - 1], Unrecorded(events[..|events| - 1], known);
      if last.fillId in known then rest else rest + [last]
  }

  function Latest(fills: seq<Fill>): Fill
    requires fills != []
  {
    if |fills| == 1 then fills[0]
    else
      var best := Latest(fills[..|fills| - 1]);
      if Before(best, fills[|fills| - 1]) then fills[|fills| - 1] else best
  }

  // ---------------------------------------------------------------- the quadratic partial-close count

  /** Quantity of every fill not after `item`. */
  function UpTo(fills: seq<Fill>, item: Fill): real {
    if fills == [] then 0.0
    else
      var last := fills[|fills| - 1];
      UpTo(fills[..|fills| - 1], item) + if Before(item, last) then 0.0 else last.quantity
  }

  /** Number of `items` whose fills up to and including them leave part of the position open. */
  function PartialCount(items: seq<Fill>, fills: seq<Fill>, executed: real): nat {
    if items == [] then 0
    else
      PartialCount(items[..|items| - 1], fills, executed) + if UpTo(fills, items[|items| - 1]) < executed then 1 else 0
  }

  function PartialEvents(events: seq<Event>): nat {
    if events == [] then 0
    else PartialEvents(events[..|events| - 1]) + if events[|events| - 1].kind.PartialClose? then 1 else 0
  }

  lemma {:induction false} EventAt(fills: seq<Fill>, executed: real, reason: Reason, i: nat)
    requires i < |fills|
    ensures EventsFor(fills, executed, reason)[i] == EventOf(fills[i], Total(fills[..i + 1]), executed, reason)
  {
    var init := fills[..|fills| - 1];
    if i < |init| {
      EventAt(init, executed, reason, i);
      assert init[..i + 1] == fills[..i + 1];
    } else {
      assert fills[..i + 1] == fills;
    }
  }

  lemma {:induction false} UpToEverything(fills: seq<Fill>, item: Fill)
    requires forall f :: f in fills ==> !Before(item, f)
    ensures UpTo(fills, item) == Total(fills)
  {
    hide Before;
    if fills != [] { UpToEverything(fills[..|fills| - 1], item); }
  }

  lemma {:induction false} UpToIsPrefixSum(fills: seq<Fill>, i: nat)
    requires Sorted(fills) && i < |fills|
    ensures UpTo(fills, fills[i]) == Total(fills[..i + 1])
  {
    hide Before;
    var init, last := fills[..|fills| - 1], fills[|fills| - 1];
    if i < |init| {
      UpToIsPrefixSum(init, i);
      assert init[..i + 1] == fills[..i + 1];
      assert Before(fills[i], last);
    } else {
      assert fills[..i + 1] == fills;
      forall f | f in fills ensures !Before(last, f) { BeforeOrders(f, last); }
      UpToEverything(fills, last);
    }
  }

  /** The quadratic count over the fills equals the number of PARTIAL_CLOSE events. */
  lemma {:induction false} PartialCountCountsEvents(fills: seq<Fill>, executed: real, reason: Reason, n: nat)
    requires Sorted(fills) && n <= |fills|
    ensures PartialCount(fills[..n], fills, executed) == PartialEvents(EventsFor(fills[..n], executed, reason))
  {
    hide UpTo;
    if n > 0 {
      PartialCountCountsEvents(fills, executed, reason, n - 1);
      UpToIsPrefixSum(fills, n - 1);
      var shown := fills[..n];
      assert shown[..n - 1] == fills[..n - 1];
      assert shown[n - 1] == fills[n - 1];
      var events := EventsFor(shown, executed, reason);
      assert events[..n - 1] == EventsFor(fills[..n - 1], executed, reason);
    }
  }

  lemma {:induction false} LatestIsLast(fills: seq<Fill>)
    requires fills != [] && Sorted(fills)
    ensures Latest(fills) == fills[|fills| - 1]
  {
    if |fills| > 1 {
      LatestIsLast(fills[..|fills| - 1]);
      assert Before(fills[|fills| - 2], fills[|fills| - 1]);
    }
  }

  // ---------------------------------------------------------------- observation

  function CheckUnchanged(t: Trade, position: Option<Position>): Result<bool, Code> {
    if position.None? then Err(UnverifiedClose)
    else if position.value.direction != t.direction then Err(DirectionMismatch)
    else if position.value.quantity != t.EffectiveOpen() then Err(UnverifiedReduction)
    else Ok(true)
  }

  function CheckRemaining(t: Trade, position: Option<Position>, remaining: real): Result<bool, Code> {
    if remaining == 0.0 then (if position.Some? then Err(PositionRemains) else Ok(true))
    else if position.None? then Err(PartialPositionMissing)
    else if position.value.direction != t.direction || position.value.quantity != remaining then Err(RemainingMismatch)
    else Ok(true)
  }

  predicate Cancelled(status: Status) { status == Canceled || status == Expired || status == Finished }

  predicate SiblingCancelled(sibling: Algo, confirmed: bool) {
    Cancelled(sibling.status) || (sibling.status == New && confirmed)
  }

  function ObserveSide(t: Trade, algo: Algo, sibling: Algo, reason: Reason, fills: seq<Fill>, ev: Evidence): Result<Observation, Code> {
    var exit := Total(fills);
    var remaining := t.executed - exit;
    if exit > t.executed then Err(ExitExceedsEntry)
    else if algo.executed != Some(exit) then Err(FillQuantityMismatch)
    else if remaining > 0.0 && algo.status != PartiallyFilled then Err(PartialStatusInvalid)
    else if remaining == 0.0 && algo.status != Filled && algo.status != Finished then Err(TerminalStatusInvalid)
    else
      var matches :- CheckRemaining(t, ev.position, remaining);
      Ok(Observation(reason, fills, remaining, remaining == 0.0 && SiblingCancelled(sibling, ev.cancelConfirmed)))
  }

  function Observe(t: Trade, ev: Evidence): Result<Option<Observation>, Code> {
    if !Identified(ev.stop, t.stop) || !Identified(ev.take, t.take) then Err(OrderIdentityInvalid)
    else if |ev.payloads| >= 1000 then Err(FillWindowTruncated)
    else
      var stopFills :- Fills(ev.payloads, ev.stop);
      var takeFills :- Fills(ev.payloads, ev.take);
      if stopFills != [] && takeFills != [] then Err(ConflictingFills)
      else if stopFills == [] && takeFills == [] then
        var same :- CheckUnchanged(t, ev.position);
        Ok(None)
      else
        var seen :- if stopFills != [] then ObserveSide(t, ev.stop, ev.take, StopLoss, stopFills, ev)
                    else ObserveSide(t, ev.take, ev.stop, TakeProfit, takeFills, ev);
        Ok(Some(seen))
  }

  // ---------------------------------------------------------------- the durable transaction

  function Updated(durable: Trade, obs: Observation, economics: Option<Economics>, now: int): Trade
    requires obs.fills != []
  {
    var last := Latest(obs.fills);
    var open := durable.(
      remaining := Some(obs.remaining),
      exit := Some(Exit(Total(obs.fills), Notional(obs.fills), Ids(obs.fills), obs.reason,
                        PartialCount(obs.fills, obs.fills, durable.executed), last.id, last.at)),
      siblingCancelled := if obs.remaining == 0.0 then Some(obs.siblingCancelled) else None,
      updatedAt := now);
    if obs.remaining == 0.0 then open.(closed := true, economics := economics, closedReason := Some(obs.reason), closedAt := Some(last.at)) else open
  }

  /** The new trade row and the events appended; an error rolls everything back. */
  function Applied(durable: Trade, events: seq<Event>, obs: Observation, economics: Option<Economics>, now: int): Result<(Trade, seq<Event>), Code>
    requires obs.fills != []
  {
    if durable.closed then Ok((durable, []))
    else if !DistinctEventIds(events) then Err(EventIdentityInvalid)
    else if !(EventIds(events) <= Ids(obs.fills)) then Err(EventEvidenceMissing)
    else if obs.remaining == 0.0 && economics.None? then Err(EconomicsUnverified)
    else Ok((Updated(durable, obs, economics, now), Unrecorded(EventsFor(obs.fills, durable.executed, obs.reason), EventIds(events))))
  }

  /** The trade as the execution service holds it in memory, its durable row, and its durable events. */
  datatype State = State(memory: Trade, durable: Trade, events: seq<Event>)

  lemma ObservedFillsExist(t: Trade, ev: Evidence)
    requires Observe(t, ev).Ok? && Observe(t, ev).value.Some?
    ensures Observe(t, ev).value.value.fills != []
  {
    hide Fills, Total, CheckRemaining, CheckUnchanged, SiblingCancelled;
  }

  function Reconciled(s: State, ev: Evidence): Result<(State, seq<Event>), Code> {
    if s.memory.closed then
      if s.memory.closedReason.None? || s.memory.siblingCancelled != Some(false) then Ok((s, []))
      else if !Identified(SiblingOf(s.memory, ev), SiblingId(s.memory)) then Err(OrderIdentityInvalid)
      else if !Cancelled(SiblingOf(s.memory, ev).status) && !ev.cancelConfirmed then Err(SiblingCancelInvalid)
      else
        var cleaned := if s.durable.siblingCancelled == Some(true) then s.durable else s.durable.(siblingCancelled := Some(true), updatedAt := ev.now);
        Ok((State(cleaned, cleaned, s.events), []))
    else
      var seen :- Observe(s.memory, ev);
      if seen.None? then Ok((s, []))
      else if seen.value.remaining == 0.0 && ev.economics.None? then Err(EconomicsUnverified)
      else if s.durable.subject != s.memory.subject then Err(TradeIdentityMismatch)
      else
        ObservedFillsExist(s.memory, ev);
        var applied :- Applied(s.durable, s.events, seen.value, ev.economics, ev.now);
        Ok((State(applied.0, applied.0, s.events + applied.1), applied.1))
  }

  function SiblingId(t: Trade): GuardId { if t.closedReason == Some(StopLoss) then t.take else t.stop }

  function SiblingOf(t: Trade, ev: Evidence): Algo { if t.closedReason == Some(StopLoss) then ev.take else ev.stop }

  /** The state after one reconciliation: an error leaves it as it was. */
  function Step(s: State, ev: Evidence): State {
    var r := Reconciled(s, ev);
    if r.Ok? then r.value.0 else s
  }

  class ProtectiveLifecycleService {
    var memory: Trade
    var durable: Trade
    var events: seq<Event>

    function Abstract(): State
      reads this
    {
      State(memory, durable, events)
    }

    /** `_apply`: one pass over the fills with running totals, adding the events not yet recorded. */
    method Apply(obs: Observation, economics: Option<Economics>, now: int) returns (result: Result<(Trade, seq<Event>), Code>)
      requires obs.fills != []
      modifies this`durable, this`events
      ensures result == Applied(old(durable), old(events), obs, economics, now)
      ensures result.Err? ==> durable == old(durable) && events == old(events)
      ensures result.Ok? ==> durable == result.value.0 && events == old(events) + result.value.1
    {
      hide Updated;
      if durable.closed { return Ok((durable, [])); }
      var known := EventIds(events);
      if !DistinctEventIds(events) { return Err(EventIdentityInvalid); }
      if !(known <= Ids(obs.fills)) { return Err(EventEvidenceMissing); }
      var appended: seq<Event>, cumulative := [], 0.0;
      for i := 0 to |obs.fills|
        invariant cumulative == Total(obs.fills[..i])
        invariant appended == Unrecorded(EventsFor(obs.fills[..i], durable.executed, obs.reason), known)
      {
        var fill := obs.fills[i];
        assert obs.fills[..i + 1][..i] == obs.fills[..i];
        cumulative := cumulative + fill.quantity;
        var event := EventOf(fill, cumulative, durable.executed, obs.reason);
        if fill.id !in known { appended := appended + [event]; }
        assert EventsFor(obs.fills[..i + 1], durable.executed, obs.reason)[..i] == EventsFor(obs.fills[..i], durable.executed, obs.reason);
      }
      assert obs.fills[..|obs.fills|] == obs.fills;
      if obs.remaining == 0.0 && economics.None? { return Err(EconomicsUnverified); }
      durable := Updated(durable, obs, economics, now);
      events := events + appended;
      return Ok((durable, appended));
    }

    /** One trade's turn of `reconcile`: cleanup when closed, else observe, apply and publish. */
    method Reconcile(ev: Evidence) returns (result: Result<seq<Event>, Code>)
      modifies this
      ensures Abstract() == Step(old(Abstract()), ev)
      ensures var r := Reconciled(old(Abstract()), ev); result == if r.Ok? then Ok(r.value.1) else Err(r.error)
    {
      hide Observe, Applied;
      if memory.closed {
        if memory.closedReason.None? || memory.siblingCancelled != Some(false) { return Ok([]); }
        if !Identified(SiblingOf(memory, ev), SiblingId(memory)) { return Err(OrderIdentityInvalid); }
        if !Cancelled(SiblingOf(memory, ev).status) && !ev.cancelConfirmed { return Err(SiblingCancelInvalid); }
        if durable.siblingCancelled != Some(true) { durable := durable.(siblingCancelled := Some(true), updatedAt := ev.now); }
        memory := durable;
        return Ok([]);
      }
      var seen := Observe(memory, ev);
      if seen.Err? { return Err(seen.error); }
      if seen.value.None? { return Ok([]); }
      var obs := seen.value.value;
      if obs.remaining == 0.0 && ev.economics.None? { return Err(EconomicsUnverified); }
      if durable.subject != memory.subject { return Err(TradeIdentityMismatch); }
      ObservedFillsExist(memory, ev);
      var applied := Apply(obs, ev.economics, ev.now);
      if applied.Err? { return Err(applied.error); }
      memory := applied.value.0;
      return Ok(applied.value.1);
    }
  }
}
