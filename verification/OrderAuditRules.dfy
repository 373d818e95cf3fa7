/** When an audit is accepted and what it writes, in the fields of evidence and rows (app/services/order_audit.py:480-660). */
module OrderAuditRules {
  import opened Trading
  import opened OrderAudit
  import opened OrderAuditRuns
  import opened OrderEvidence

  // ---------------------------------------------------------------- economics and status

  /** The status fits the executed quantity, and the average is there exactly when something executed. */
  predicate Coherent(role: Role, requested: real, executed: real, average: Option<real>, status: Status, actual: Option<int>) {
    && status != Unsupported && executed <= requested
    && (executed > 0.0 ==> average.Some?) && (executed == 0.0 ==> average.None?)
    && ((role == StopLossOrder || role == TakeProfitOrder) && executed > 0.0 ==> actual.Some?)
    && (status == New || status == Rejected ==> executed == 0.0)
    && (status == PartiallyFilled ==> 0.0 < executed < requested)
    && (status == Filled ==> executed == requested)
    && (status == Finished && (role == Entry || role == ManualClose) ==> executed == requested)
  }

  /** A FINISHED guard beside its trade: with an execution the trade's exit is this guard's and as large, without one the exit
      is the other guard's. */
  predicate FinishFits(role: Role, executed: real, status: Status, exit: TradeExit) {
    status == Finished && (role == StopLossOrder || role == TakeProfitOrder) ==>
      if executed == 0.0 then exit.side == Some(if role == StopLossOrder then TakeProfitOrder else StopLossOrder)
      else exit.side == Some(role) && executed == exit.quantity
  }

  lemma EconomicsExactlyWhen(role: Role, requested: real, executed: real, average: Option<real>, status: Status, actual: Option<int>, exit: TradeExit)
    ensures ValidateEconomics(role, requested, executed, average, status, actual, None) == Ok(true) <==>
            Coherent(role, requested, executed, average, status, actual)
    ensures ValidateEconomics(role, requested, executed, average, status, actual, Some(exit)) == Ok(true) <==>
            Coherent(role, requested, executed, average, status, actual) && FinishFits(role, executed, status, exit)
    ensures forall trade :: var r := ValidateEconomics(role, requested, executed, average, status, actual, trade); r.Ok? ==> r == Ok(true)
  {
  }

  /** CANCELED and CANCELLED are one status; NEW may become anything supported, PARTIALLY_FILLED anything final. */
  predicate Steps(now: Status, next: Status) {
    || now == next || (now == Canceled && next == Cancelled) || (now == Cancelled && next == Canceled)
    || (now == New && next != Unsupported)
    || (now == PartiallyFilled && (next == Filled || next == Finished || next == Canceled || next == Cancelled || next == Expired || next == Rejected))
  }

  lemma StepsExactly(now: Status, next: Status)
    ensures TransitionAllowed(now, next) <==> Steps(now, next)
  {
  }

  // ---------------------------------------------------------------- acceptance

  /** The evidence is about the order the row is about, as far as the row says. */
  predicate SameIdentity(row: Row, e: Evidence) {
    && row.client == e.client && (row.signal.Some? ==> row.signal == Some(e.signal)) && (row.trade.Some? ==> row.trade == Some(e.trade))
    && (row.exchange.Some? ==> row.exchange == Some(e.exchange))
  }

  /** The evidence continues the recorded payload. */
  predicate Continues(a: Audit, e: Evidence) {
    && a.role == e.role && a.client == e.client && a.exchange == e.exchange && a.requested == e.requested
    && (a.actual.Some? ==> a.actual == e.actual)
    && a.executed <= e.executed && (a.executed == e.executed ==> a.average == e.average)
    && Steps(a.status, e.status)
    && forall id :: id in a.tradeIds ==> exists i :: 0 <= i < |e.fills| && e.fills[i].id == id
  }

  /** No arriving fill contradicts a recorded one. */
  predicate FillsAgree(fills: map<string, FillRow>, order: int, arrived: seq<Fill>) {
    forall i :: 0 <= i < |arrived| && arrived[i].id in fills ==> fills[arrived[i].id] == FillRow(order, arrived[i].quantity, arrived[i].price)
  }

  predicate DistinctFills(arrived: seq<Fill>) {
    forall i, j :: 0 <= i < j < |arrived| ==> arrived[i].id != arrived[j].id
  }

  lemma {:induction false} ProperAreDistinct(arrived: seq<Fill>)
    requires ProperFills(arrived)
    ensures DistinctFills(arrived)
    ensures forall id :: id in Ids(arrived) <==> exists i :: 0 <= i < |arrived| && arrived[i].id == id
  {
    if arrived != [] {
      var rest, last := arrived[..|arrived| - 1], arrived[|arrived| - 1];
      ProperAreDistinct(rest);
      forall id ensures id in Ids(arrived) <==> exists i :: 0 <= i < |arrived| && arrived[i].id == id {
        if id in Ids(rest) {
          var i :| 0 <= i < |rest| && rest[i].id == id;
          assert arrived[i].id == id;
        }
        if i :| 0 <= i < |arrived| && arrived[i].id == id {
          if i < |rest| { assert rest[i].id == id; }
        }
      }
    }
  }

  /** The fill rows after `arrived`: the old ones, and one row of the order for every arriving fill. */
  ghost predicate FillsWritten(before: map<string, FillRow>, after: map<string, FillRow>, order: int, arrived: seq<Fill>) {
    && (forall id :: id in before ==> id in after && after[id] == before[id])
    && (forall i :: 0 <= i < |arrived| ==> arrived[i].id in after && after[arrived[i].id] == FillRow(order, arrived[i].quantity, arrived[i].price))
    && (forall id :: id in after && id !in before ==> exists i :: 0 <= i < |arrived| && arrived[i].id == id)
  }

  lemma {:induction false} FillsExactly(fills: map<string, FillRow>, order: int, arrived: seq<Fill>)
    requires DistinctFills(arrived)
    ensures var r := PersistFills(fills, order, arrived);
      && (r.Ok? <==> FillsAgree(fills, order, arrived))
      && (r.Ok? ==> FillsWritten(fills, r.value, order, arrived))
  {
    if arrived != [] {
      hide FillsWritten, FillsAgree;
      var rest, last := arrived[..|arrived| - 1], arrived[|arrived| - 1];
      assert DistinctFills(rest);
      FillsExactly(fills, order, rest);
      AgreeOnOneMore(fills, order, rest, last);
      assert rest + [last] == arrived;
      var before := PersistFills(fills, order, rest);
      if before.Ok? { OneMoreFill(fills, before.value, order, rest, last); }
    } else {
      assert FillsWritten(fills, fills, order, []);
    }
  }

  lemma AgreeOnOneMore(fills: map<string, FillRow>, order: int, rest: seq<Fill>, last: Fill)
    ensures FillsAgree(fills, order, rest + [last]) <==>
            FillsAgree(fills, order, rest) && (last.id in fills ==> fills[last.id] == FillRow(order, last.quantity, last.price))
  {
    var arrived := rest + [last];
    assert forall i :: 0 <= i < |rest| ==> arrived[i] == rest[i];
    assert arrived[|rest|] == last;
  }

  lemma OneMoreFill(fills: map<string, FillRow>, before: map<string, FillRow>, order: int, rest: seq<Fill>, last: Fill)
    requires FillsWritten(fills, before, order, rest) && forall i :: 0 <= i < |rest| ==> rest[i].id != last.id
    ensures last.id in before <==> last.id in fills
    ensures last.id in fills ==> before[last.id] == fills[last.id]
    ensures last.id !in fills || fills[last.id] == FillRow(order, last.quantity, last.price) ==>
      FillsWritten(fills, before[last.id := FillRow(order, last.quantity, last.price)], order, rest + [last])
    ensures last.id in fills && fills[last.id] == FillRow(order, last.quantity, last.price) ==> FillsWritten(fills, before, order, rest + [last])
  {
    var arrived := rest + [last];
    assert arrived[|rest|] == last && forall i :: 0 <= i < |rest| ==> arrived[i] == rest[i];
    forall id | id in before && id !in fills ensures exists i :: 0 <= i < |arrived| && arrived[i].id == id {
      var i :| 0 <= i < |rest| && rest[i].id == id;
      assert arrived[i].id == id;
    }
  }

  /** An audit is accepted exactly when its evidence is about the row's order, continues its payload and contradicts no fill. */
  ghost predicate Acceptable(book: Book, order: int, e: Evidence) {
    && (order in book.orders ==>
          && SameIdentity(book.orders[order], e)
          && (book.orders[order].audit.Some? ==> Continues(book.orders[order].audit.value, e)))
    && FillsAgree(book.fills, order, e.fills)
  }

  /** The row an accepted audit leaves: every column and every field of the payload is the evidence's. */
  ghost predicate WrittenFrom(row: Row, e: Evidence, createdAt: int, now: int) {
    && row.signal == Some(e.signal) && row.trade == Some(e.trade) && row.client == e.client && row.exchange == Some(e.exchange)
    && row.status == e.status && row.quantity == Some(e.executed) && row.average == e.average
    && row.createdAt == createdAt && row.updatedAt == now && row.audit.Some?
    && var a := row.audit.value;
    && a.role == e.role && a.client == e.client && a.exchange == e.exchange && a.actual == e.actual
    && a.requested == e.requested && a.executed == e.executed && a.average == e.average && a.status == e.status && a.verifiedAt == now
    && forall id :: id in a.tradeIds <==> exists i :: 0 <= i < |e.fills| && e.fills[i].id == id
  }

  lemma ContinuesExactly(row: Row, e: Evidence)
    requires ProperFills(e.fills)
    ensures Checked(row, e).Ok? <==> SameIdentity(row, e) && (row.audit.Some? ==> Continues(row.audit.value, e))
  {
    ProperAreDistinct(e.fills);
    if row.audit.Some? { StepsExactly(row.audit.value.status, e.status); }
    hide ProperFills, DistinctFills, Ids, TransitionAllowed, Steps;
  }

  /** What an audit does: accepted exactly when acceptable, it writes its order's row from the evidence and its fills, and
      nothing else; otherwise the book stays as it is. */
  lemma AuditExactly(book: Book, order: int, e: Evidence, now: int)
    requires ProperFills(e.fills)
    ensures Persisted(book, order, e, now).Ok? <==> Acceptable(book, order, e)
    ensures var after := Audited(book, order, e, now);
      if !Acceptable(book, order, e) then after == book
      else
        && after.orders.Keys == book.orders.Keys + {order}
        && (forall other :: other in book.orders && other != order ==> after.orders[other] == book.orders[other])
        && WrittenFrom(after.orders[order], e, if order in book.orders then book.orders[order].createdAt else now, now)
        && FillsWritten(book.fills, after.fills, order, e.fills)
  {
    hide Checked, FillsAgree, FillsWritten, SameIdentity, Continues, PersistFills, ProperFills, DistinctFills, Ids;
    ProperAreDistinct(e.fills);
    FillsExactly(book.fills, order, e.fills);
    if order in book.orders { ContinuesExactly(book.orders[order], e); }
  }

  /** A row reads back exactly when it is canonical, its columns say what its payload says, and the payload's economics
      cohere; and it reads back as its payload. */
  lemma ReadsBackExactlyWhen(row: Row)
    ensures Record(row).Ok? <==>
      && row.audit.Some? && var a := row.audit.value;
      && row.client == a.client && row.exchange == Some(a.exchange) && row.status == a.status
      && row.quantity == Some(a.executed) && row.average == a.average
      && Coherent(a.role, a.requested, a.executed, a.average, a.status, a.actual)
    ensures Record(row).Ok? ==> row.audit == Some(Record(row).value)
  {
    if row.audit.Some? {
      var a := row.audit.value;
      EconomicsExactlyWhen(a.role, a.requested, a.executed, a.average, a.status, a.actual, TradeExit(None, 0.0));
    }
    hide ValidateEconomics, Coherent;
  }

  // ---------------------------------------------------------------- over every run

  /** Identity columns are written once: whatever a row says of its signal, trade and exchange order it says forever, and its
      client id and creation time never change. */
  ghost predicate SameOrderRow(a: Row, b: Row) {
    && (a.signal.Some? ==> b.signal == a.signal) && (a.trade.Some? ==> b.trade == a.trade) && (a.exchange.Some? ==> b.exchange == a.exchange)
    && a.client == b.client && a.createdAt == b.createdAt
  }

  lemma AuditKeepsIdentity(book: Book, order: int, e: Evidence, now: int, other: int)
    requires ProperFills(e.fills) && other in book.orders
    ensures var after := Audited(book, order, e, now); other in after.orders && SameOrderRow(book.orders[other], after.orders[other])
  {
    hide FillsAgree, FillsWritten, Continues, Audited;
    AuditExactly(book, order, e, now);
  }

  lemma {:induction false} RunsKeepIdentity(book: Book, turns: seq<Turn>, order: int)
    requires AllVerified(turns) && order in book.orders
    ensures var after := Run(book, turns); order in after.orders && SameOrderRow(book.orders[order], after.orders[order])
  {
    hide Audited, Quantity, Notional, Mean, ValidateEconomics;
    if turns != [] {
      var init, last := turns[..|turns| - 1], turns[|turns| - 1];
      RunsKeepIdentity(book, init, order);
      AuditKeepsIdentity(Run(book, init), last.order, last.evidence, last.now, order);
    }
  }

  /** Once an audit of an order is accepted, the row carries that evidence's signal, trade, client and exchange ids, and keeps
      them over every later run. */
  lemma AcceptedIdentityStays(book: Book, order: int, e: Evidence, now: int, turns: seq<Turn>)
    requires Verified(e) && AllVerified(turns) && Persisted(book, order, e, now).Ok?
    ensures var after := Run(Audited(book, order, e, now), turns);
      && order in after.orders && var row := after.orders[order];
      row.signal == Some(e.signal) && row.trade == Some(e.trade) && row.client == e.client && row.exchange == Some(e.exchange)
  {
    hide Audited, Persisted, Quantity, Notional, Mean, ValidateEconomics, FillsWritten, Acceptable;
    AuditExactly(book, order, e, now);
    RunsKeepIdentity(Audited(book, order, e, now), turns, order);
  }

  // ---------------------------------------------------------------- when there is evidence

  /** The reported order is the expected one by ids, side and size. */
  predicate Matches(x: Expected, p: OrderPayload) {
    && p.status.Some? && p.client == Some(x.client) && p.exchange.Some?
    && (x.role == StopLossOrder || x.role == TakeProfitOrder || x.exchange.Some? ==> p.exchange == x.exchange)
    && (p.requested.Some? ==> p.requested.value == x.requested)
    && (p.side == Some(Buy) ==> (x.role == Entry <==> x.direction == Long))
    && (p.side == Some(Sell) ==> (x.role == Entry <==> x.direction == Short))
  }

  /** The fills of the order's actual execution: a regular order is its own, an algo that never triggered has none. */
  function FillsSeen(x: Expected, p: OrderPayload, payloads: seq<TradePayload>): Result<seq<Fill>, Code>
    requires p.exchange.Some?
  {
    var side := if (x.direction == Long && x.role == Entry) || (x.direction == Short && x.role != Entry) then Buy else Sell;
    if x.role == Entry || x.role == ManualClose then FillsFor(payloads, x.symbol, p.exchange.value, side)
    else if p.actual.None? then Ok([])
    else FillsFor(payloads, x.symbol, p.actual.value, side)
  }

  /** What the order states of its execution is what its fills say; an average of zero states nothing. */
  predicate StatesItsFills(p: OrderPayload, fills: seq<Fill>) {
    && (p.executed.Some? ==> p.executed.value == Quantity(fills))
    && (p.average.Some? && p.average.value != 0.0 ==> Quantity(fills) > 0.0 && p.average.value == Notional(fills) / Quantity(fills))
  }

  lemma {:induction false} QuantityNotNegative(fills: seq<Fill>)
    requires ProperFills(fills)
    ensures Quantity(fills) >= 0.0 && Notional(fills) >= 0.0
  {
    if fills != [] { QuantityNotNegative(fills[..|fills| - 1]); }
  }

  lemma EconomicsExactly(p: OrderPayload, fills: seq<Fill>)
    requires ProperFills(fills)
    ensures (p.executed.Some? && p.executed.value < 0.0) || (p.average.Some? && p.average.value < 0.0) ==> !StatesItsFills(p, fills)
    ensures var r := ExecutionEconomics(p.executed, if p.average == Some(0.0) then None else p.average, fills);
      && (r.Ok? <==> StatesItsFills(p, fills))
      && (r.Ok? ==> r.value == (Quantity(fills), if Quantity(fills) > 0.0 then Some(Notional(fills) / Quantity(fills)) else None))
  {
    QuantityNotNegative(fills);
    if Quantity(fills) > 0.0 { assert Notional(fills) / Quantity(fills) >= 0.0; }
    hide Quantity, Notional, ProperFills;
  }

  /** The builders hand evidence over exactly when the reported order is the expected one, its fills are readable and are what
      it states, its status fits them, and a finished guard fits the trade's exit. */
  lemma EvidenceExactlyWhen(x: Expected, p: OrderPayload, payloads: seq<TradePayload>, exit: TradeExit)
    requires x.requested > 0.0
    ensures EvidenceOf(x, p, payloads, exit).Ok? <==>
      && Matches(x, p) && FillsSeen(x, p, payloads).Ok? && StatesItsFills(p, FillsSeen(x, p, payloads).value)
      && var quantity, notional := Quantity(FillsSeen(x, p, payloads).value), Notional(FillsSeen(x, p, payloads).value);
      && Coherent(x.role, x.requested, quantity, if quantity > 0.0 then Some(notional / quantity) else None, p.status.value,
                  if x.role == Entry || x.role == ManualClose then p.exchange else p.actual)
      && FinishFits(x.role, quantity, p.status.value, exit)
  {
    hide Quantity, Notional, Mean, FillsFor, ProperFills, Coherent, FinishFits, ValidateEconomics, ExecutionEconomics, StatesItsFills;
    if Matches(x, p) && FillsSeen(x, p, payloads).Ok? {
      var fills := FillsSeen(x, p, payloads).value;
      assert ProperFills(fills) by {
        if fills == [] { EmptyIsProper(); } else {
          ReadFillsAreProper(payloads, x.symbol, if Protective(x.role) then p.actual.value else p.exchange.value, ExpectedSide(x.direction, x.role));
        }
      }
      EconomicsExactly(p, fills);
      var quantity := Quantity(fills);
      EconomicsExactlyWhen(x.role, x.requested, quantity, if quantity > 0.0 then Some(Notional(fills) / quantity) else None, p.status.value,
                           if Protective(x.role) then p.actual else p.exchange, exit);
    }
  }

  lemma EmptyIsProper()
    ensures ProperFills([])
  {
  }
}
